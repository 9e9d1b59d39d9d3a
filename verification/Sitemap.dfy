/** Sitemap discovery: a breadth-first walk with a budget of files and of URLs. */
module Sitemap {
  import opened Common

  /** An entry of a urlset: its host and page kind, the hreflang codes, and the day of its lastmod if it is a date. */
  datatype Item = Item(loc: string, host: Option<string>, kind: string, langs: seq<string>, lastmod: Option<int>)

  /** What requesting a URL gives: an error, an HTML page instead of a sitemap, an index or a urlset. */
  datatype Response = Failed(status: Option<nat>) | Html | Index(children: seq<string>) | UrlSet(items: seq<Item>)

  type Web = string -> Response

  datatype Bucket = Days30 | Days90 | Days365 | Older

  function BucketOf(day: int, now: int): Bucket {
    var age := now - day;
    if age <= 30 then Days30 else if age <= 90 then Days90 else if age <= 365 then Days365 else Older
  }

  const WELL_KNOWN := ["/sitemap.xml", "/sitemap_index.xml", "/sitemap-index.xml", "/sitemap/sitemap.xml", "/wp-sitemap.xml"]

  /** The guessed URLs of a site; origin comes without trailing slashes. */
  function Guesses(origin: string): (r: seq<string>)
    ensures |r| == |WELL_KNOWN|
  {
    seq(|WELL_KNOWN|, i requires 0 <= i < |WELL_KNOWN| => origin + WELL_KNOWN[i])
  }

  lemma GuessesAreDistinct(origin: string)
    ensures Distinct(Guesses(origin))
  {
    forall i, j | 0 <= i < j < |WELL_KNOWN| ensures Guesses(origin)[i] != Guesses(origin)[j] {
      assert (origin + WELL_KNOWN[i])[|origin|..] == WELL_KNOWN[i] && (origin + WELL_KNOWN[j])[|origin|..] == WELL_KNOWN[j];
      PathsDiffer(i, j);
    }
  }

  lemma PathsDiffer(i: nat, j: nat)
    requires i < j < |WELL_KNOWN|
    ensures WELL_KNOWN[i] != WELL_KNOWN[j]
  {
    assert |WELL_KNOWN[0]| == 12 && |WELL_KNOWN[1]| == 18 && |WELL_KNOWN[2]| == 18 && |WELL_KNOWN[3]| == 20 && |WELL_KNOWN[4]| == 15;
    assert WELL_KNOWN[1][8] != WELL_KNOWN[2][8];
  }

  // ------------------------------------------------------------------ _spread

  /** int(i * (n / k)), in exact arithmetic. */
  function Stride(n: nat, k: nat, i: nat): nat
    requires k > 0
  {
    i * n / k
  }

  lemma MulMonotone(p: nat, q: nat, k: nat)
    ensures p <= q ==> p * k <= q * k
  {
    if p <= q { assert (q - p) * k >= 0; }
  }

  lemma QuotientBounds(a: nat, k: nat)
    requires k > 0
    ensures (a / k) * k <= a < (a / k) * k + k
  {
    assert a == k * (a / k) + a % k;
  }

  lemma QuotientBelow(a: nat, n: nat, k: nat)
    requires k > 0 && a < n * k
    ensures a / k < n
  {
    QuotientBounds(a, k);
    MulMonotone(n, a / k, k);
  }

  lemma QuotientGrows(a: nat, b: nat, k: nat)
    requires 0 < k && a + k <= b
    ensures a / k < b / k
  {
    QuotientBounds(a, k);
    QuotientBounds(b, k);
    MulMonotone(b / k, a / k, k);
  }

  lemma StrideLaws(n: nat, k: nat, i: nat)
    requires 0 < k < n && i < k
    ensures Stride(n, k, i) < n
    ensures Stride(n, k, i) < Stride(n, k, i + 1)
  {
    var (a, b) := (i * n, (i + 1) * n);
    assert b == a + n;
    MulMonotone(i + 1, k, n);
    assert k * n == n * k;
    QuotientBelow(a, n, k);
    QuotientGrows(a, b, k);
  }

  function Spread<T>(items: seq<T>, k: nat): (r: seq<T>)
    requires k > 0
    ensures |r| == Min(k, |items|)
  {
    if k >= |items| then items
    else seq(k, i requires 0 <= i < k => (StrideLaws(|items|, k, i); items[Stride(|items|, k, i)]))
  }

  lemma StrideGrows(n: nat, k: nat, i: nat, j: nat)
    requires 0 < k < n && i < j < k
    ensures Stride(n, k, i) < Stride(n, k, j)
    decreases j
  {
    StrideLaws(n, k, j - 1);
    if i < j - 1 { StrideGrows(n, k, i, j - 1); }
  }

  /** The picks are different children, in order, beginning with the first. */
  lemma SpreadPicks<T>(items: seq<T>, k: nat) returns (at: seq<nat>)
    requires k > 0
    ensures |at| == |Spread(items, k)| && (items != [] ==> at[0] == 0)
    ensures forall i | 0 <= i < |at| :: at[i] < |items| && Spread(items, k)[i] == items[at[i]]
    ensures forall i, j | 0 <= i < j < |at| :: at[i] < at[j]
  {
    if k >= |items| {
      at := seq(|items|, i => i);
    } else {
      at := seq(k, i requires 0 <= i < k => Stride(|items|, k, i));
      forall i | 0 <= i < k ensures at[i] < |items| { StrideLaws(|items|, k, i); }
      forall i, j | 0 <= i < j < k ensures at[i] < at[j] { StrideGrows(|items|, k, i, j); }
    }
  }

  // ------------------------------------------------------------------ what a list of entries amounts to

  /** The counters that describe the entries read. */
  datatype Tally = Tally(urlCount: nat, kinds: multiset<string>, hosts: multiset<string>, languages: set<string>,
                         lastmodCount: nat, buckets: multiset<Bucket>, lastmodMin: Option<int>, lastmodMax: Option<int>)

  const NOTHING := Tally(0, multiset{}, multiset{}, {}, 0, multiset{}, None, None)

  function AsSet(s: seq<string>): set<string> { set x | x in s }

  function CountDay(t: Tally, day: int, now: int): Tally {
    t.(lastmodCount := t.lastmodCount + 1,
       buckets := t.buckets + multiset{BucketOf(day, now)},
       lastmodMin := if t.lastmodMin.None? || day < t.lastmodMin.value then Some(day) else t.lastmodMin,
       lastmodMax := if t.lastmodMax.None? || day > t.lastmodMax.value then Some(day) else t.lastmodMax)
  }

  function CountEntry(t: Tally, it: Item, now: int): Tally {
    var page := t.(urlCount := t.urlCount + 1,
                   hosts := if it.host.Some? then t.hosts + multiset{it.host.value} else t.hosts,
                   kinds := t.kinds + multiset{it.kind},
                   languages := t.languages + AsSet(it.langs));
    if it.lastmod.Some? then CountDay(page, it.lastmod.value, now) else page
  }

  function TallyOf(items: seq<Item>, now: int): Tally {
    if items == [] then NOTHING else CountEntry(TallyOf(items[..|items| - 1], now), items[|items| - 1], now)
  }

  function Kinds(items: seq<Item>): (r: seq<string>)
    ensures |r| == |items|
  {
    seq(|items|, i requires 0 <= i < |items| => items[i].kind)
  }

  /** The days of the entries whose lastmod is a date. */
  function DaysOf(items: seq<Item>): seq<int> {
    if items == [] then []
    else
      var (before, day) := (DaysOf(items[..|items| - 1]), items[|items| - 1].lastmod);
      if day.Some? then before + [day.value] else before
  }

  function Buckets(days: seq<int>, now: int): (r: seq<Bucket>)
    ensures |r| == |days|
  {
    seq(|days|, i requires 0 <= i < |days| => BucketOf(days[i], now))
  }

  predicate IsMin(m: Option<int>, days: seq<int>) {
    if m.None? then days == [] else m.value in days && forall d | d in days :: m.value <= d
  }

  predicate IsMax(m: Option<int>, days: seq<int>) {
    if m.None? then days == [] else m.value in days && forall d | d in days :: d <= m.value
  }

  lemma ExtremesOfSnoc(min: Option<int>, max: Option<int>, days: seq<int>, day: int)
    requires IsMin(min, days) && IsMax(max, days)
    ensures IsMin(if min.None? || day < min.value then Some(day) else min, days + [day])
    ensures IsMax(if max.None? || day > max.value then Some(day) else max, days + [day])
  {
  }

  lemma CountDayMeans(t: Tally, days: seq<int>, day: int, now: int)
    requires t.lastmodCount == |days| && t.buckets == multiset(Buckets(days, now)) && IsMin(t.lastmodMin, days) && IsMax(t.lastmodMax, days)
    ensures var u := CountDay(t, day, now);
            && u.lastmodCount == |days + [day]| && u.buckets == multiset(Buckets(days + [day], now))
            && IsMin(u.lastmodMin, days + [day]) && IsMax(u.lastmodMax, days + [day])
  {
    assert Buckets(days + [day], now) == Buckets(days, now) + [BucketOf(day, now)];
    ExtremesOfSnoc(t.lastmodMin, t.lastmodMax, days, day);
  }

  /** Every dated entry is counted once by age, between the earliest and the latest day. */
  lemma {:induction false} TallyOfDays(items: seq<Item>, now: int)
    ensures var (t, days) := (TallyOf(items, now), DaysOf(items));
            && t.lastmodCount == |days| && t.buckets == multiset(Buckets(days, now))
            && IsMin(t.lastmodMin, days) && IsMax(t.lastmodMax, days)
  {
    if items != [] {
      var (front, last) := (items[..|items| - 1], items[|items| - 1]);
      TallyOfDays(front, now);
      if last.lastmod.Some? { CountDayMeans(TallyOf(front, now), DaysOf(front), last.lastmod.value, now); }
    }
  }

  lemma KindsOfLast(items: seq<Item>)
    requires items != []
    ensures Kinds(items) == Kinds(items[..|items| - 1]) + [items[|items| - 1].kind]
  {
  }

  /** Every entry is counted once by kind. */
  lemma {:induction false} TallyOfKinds(items: seq<Item>, now: int)
    ensures var t := TallyOf(items, now); t.urlCount == |t.kinds| == |items| && t.kinds == multiset(Kinds(items))
  {
    if items != [] {
      var front := items[..|items| - 1];
      KindsOfLast(items);
      TallyOfKinds(front, now);
    }
  }

  function Locs(items: seq<Item>): (r: seq<string>)
    ensures |r| == |items|
  {
    seq(|items|, i requires 0 <= i < |items| => items[i].loc)
  }

  /** The entries of every urlset among the requested URLs, in order. */
  function AllItems(web: Web, requested: seq<string>): seq<Item> {
    if requested == [] then []
    else
      var (before, r) := (AllItems(web, requested[..|requested| - 1]), web(requested[|requested| - 1]));
      if r.UrlSet? then before + r.items else before
  }

  // ------------------------------------------------------------------ the reservoir

  /** A sample of the entries' URLs, as large as it may be, none taken more often than it occurs. */
  ghost predicate IsSample(sample: seq<string>, size: nat, items: seq<Item>) {
    |sample| == Min(size, |items|) && multiset(sample) <= multiset(Locs(items))
  }

  /** One step of the reservoir: kept while there is room, else it replaces an arbitrary slot or none. */
  method Reserve(sample: seq<string>, size: nat, ghost items: seq<Item>, it: Item, seen: nat) returns (r: seq<string>)
    requires IsSample(sample, size, items) && seen == |items| + 1
    ensures IsSample(r, size, items + [it])
  {
    LocsOfSnoc(items, it);
    r := sample;
    if |sample| < size {
      r := sample + [it.loc];
    } else {
      var j :| 0 <= j < seen;
      if j < size {
        r := sample[j := it.loc];
        Replaced(sample, j, it.loc);
      }
    }
  }

  lemma LocsOfSnoc(items: seq<Item>, it: Item)
    ensures Locs(items + [it]) == Locs(items) + [it.loc]
    ensures multiset(Locs(items + [it])) == multiset(Locs(items)) + multiset{it.loc}
  {
    assert Locs(items + [it]) == Locs(items) + [it.loc];
  }

  lemma Replaced(s: seq<string>, j: nat, x: string)
    requires j < |s|
    ensures multiset(s[j := x]) <= multiset(s) + multiset{x}
  {
  }

  // ------------------------------------------------------------------ the frontier

  /** URLs asked for, URLs waiting, URLs noted, and whether guesses are still being tried. */
  datatype Frontier = Frontier(requested: seq<string>, queue: seq<string>, seen: set<string>, probing: bool)

  lemma {:induction false} WithoutKeeps(requested: seq<string>, queue: seq<string>, guesses: seq<string>)
    requires Distinct(requested + queue)
    ensures Distinct(requested + Without(queue, guesses))
    ensures forall u | u in Without(queue, guesses) :: u in queue
    ensures forall u | u in queue :: u in Without(queue, guesses) || u in guesses
  {
    if queue != [] {
      var (front, last) := (queue[..|queue| - 1], queue[|queue| - 1]);
      var all := requested + queue;
      assert queue == front + [last] && all[..|all| - 1] == requested + front;
      assert Distinct(requested + front) by { assert forall i | 0 <= i < |all| - 1 :: all[i] == (requested + front)[i]; }
      WithoutKeeps(requested, front, guesses);
      if last !in guesses {
        NotAgain(requested, front, last);
        var kept := requested + Without(front, guesses);
        assert requested + Without(queue, guesses) == kept + [last];
        DistinctSnoc(kept, last);
      }
    }
  }

  lemma NotAgain(requested: seq<string>, front: seq<string>, last: string)
    requires Distinct(requested + (front + [last]))
    ensures last !in requested && last !in front
  {
    var all := requested + (front + [last]);
    var n := |requested| + |front|;
    assert all[n] == last;
    forall i | 0 <= i < |requested| ensures requested[i] != last { assert all[i] == requested[i]; }
    forall i | 0 <= i < |front| ensures front[i] != last { assert all[|requested| + i] == front[i]; }
  }

  lemma DistinctSnoc(urls: seq<string>, u: string)
    requires Distinct(urls) && u !in urls
    ensures Distinct(urls + [u])
  {
  }

  /** Requested and waiting URLs are all different, and all noted. */
  ghost predicate Planned(f: Frontier) { Distinct(f.requested + f.queue) && forall u | u in f.requested + f.queue :: u in f.seen }

  /** Whatever was noted is requested, waiting, or a guess given up. */
  ghost predicate Accounted(f: Frontier, guesses: seq<string>) { forall u | u in f.seen :: u in f.requested + f.queue || u in guesses }

  /** Every child of a requested index is noted. */
  ghost predicate Followed(web: Web, f: Frontier) {
    forall u | u in f.requested && web(u).Index? :: forall c | c in web(u).children :: c in f.seen
  }

  ghost predicate Sound(web: Web, origin: string, f: Frontier, truncated: bool) {
    Planned(f) && Accounted(f, Guesses(origin)) && (!truncated ==> Followed(web, f))
  }

  function Note(f: Frontier, url: string): Frontier {
    if url in f.seen then f else f.(seen := f.seen + {url}, queue := f.queue + [url])
  }

  function NoteAll(f: Frontier, urls: seq<string>): Frontier {
    if urls == [] then f else Note(NoteAll(f, urls[..|urls| - 1]), urls[|urls| - 1])
  }

  lemma NoteKeeps(f: Frontier, url: string, guesses: seq<string>)
    requires Planned(f) && Accounted(f, guesses)
    ensures Planned(Note(f, url)) && Accounted(Note(f, url), guesses)
  {
    if url !in f.seen {
      DistinctSnoc(f.requested + f.queue, url);
      assert f.requested + (f.queue + [url]) == f.requested + f.queue + [url];
    }
  }

  lemma {:induction false} NoteAllKeeps(f: Frontier, urls: seq<string>, guesses: seq<string>)
    requires Planned(f) && Accounted(f, guesses)
    ensures var g := NoteAll(f, urls);
            && Planned(g) && Accounted(g, guesses) && f.seen <= g.seen && g.requested == f.requested && g.probing == f.probing
            && forall u | u in urls :: u in g.seen
  {
    if urls != [] {
      NoteAllKeeps(f, urls[..|urls| - 1], guesses);
      NoteKeeps(NoteAll(f, urls[..|urls| - 1]), urls[|urls| - 1], guesses);
      assert urls == urls[..|urls| - 1] + [urls[|urls| - 1]];
    }
  }

  /** Queues the locations that were not noted before, and notes them. */
  method Enqueue(f: Frontier, urls: seq<string>) returns (g: Frontier)
    ensures g == NoteAll(f, urls)
  {
    var queue, seen := f.queue, f.seen;
    for i := 0 to |urls|
      invariant f.(queue := queue, seen := seen) == NoteAll(f, urls[..i])
    {
      assert urls[..i + 1][..i] == urls[..i];
      if urls[i] !in seen {
        seen := seen + {urls[i]};
        queue := queue + [urls[i]];
      }
    }
    assert urls[..|urls|] == urls;
    g := f.(queue := queue, seen := seen);
  }

  function Pop(f: Frontier): Frontier
    requires f.queue != []
  {
    f.(requested := f.requested + [f.queue[0]], queue := f.queue[1..])
  }

  function GiveUpGuesses(f: Frontier, guesses: seq<string>): Frontier { f.(queue := Without(f.queue, guesses), probing := false) }

  lemma PopKeeps(web: Web, origin: string, f: Frontier, truncated: bool)
    requires f.queue != [] && Sound(web, origin, f, truncated)
    ensures var g := Pop(f); Planned(g) && Accounted(g, Guesses(origin))
    ensures !web(f.queue[0]).Index? ==> Sound(web, origin, Pop(f), truncated)
  {
    assert Pop(f).requested + Pop(f).queue == f.requested + f.queue;
  }

  lemma GiveUpKeeps(f: Frontier, guesses: seq<string>)
    requires Planned(f) && Accounted(f, guesses)
    ensures Planned(GiveUpGuesses(f, guesses)) && Accounted(GiveUpGuesses(f, guesses), guesses)
  {
    WithoutKeeps(f.requested, f.queue, guesses);
  }

  /** The robots sitemaps, or the guesses when there are none. */
  function Initial(origin: string, robots: seq<string>): Frontier {
    var f := NoteAll(Frontier([], [], {}, false), robots);
    if f.queue == [] then Frontier([], Guesses(origin), f.seen + AsSet(Guesses(origin)), true) else f
  }

  method Start(origin: string, robots: seq<string>) returns (f: Frontier)
    ensures f == Initial(origin, robots)
    ensures Planned(f) && Accounted(f, Guesses(origin)) && f.requested == []
    ensures forall u | u in robots :: u in f.seen
  {
    var none := Frontier([], [], {}, false);
    NoteAllKeeps(none, robots, Guesses(origin));
    f := Enqueue(none, robots);
    if f.queue == [] {
      GuessesAreDistinct(origin);
      assert [] + Guesses(origin) == Guesses(origin);
      f := Frontier([], Guesses(origin), f.seen + AsSet(Guesses(origin)), true);
      assert f.requested + f.queue == Guesses(origin);
    }
  }

  /** The children of an index that still fit the file budget, else a spread of them. */
  function Picks(children: seq<string>, budgetLeft: int): seq<string> {
    if |children| <= budgetLeft then children else Spread(children, Max(budgetLeft, 1))
  }

  lemma PicksAreChildren(children: seq<string>, budgetLeft: int)
    ensures |Picks(children, budgetLeft)| == |children| ==> Picks(children, budgetLeft) == children
  {
  }

  /** The frontier after an index: its picks noted, the guesses given up if one of them led here. */
  function AfterIndex(f: Frontier, children: seq<string>, budgetLeft: int, guesses: seq<string>): Frontier {
    var g := NoteAll(f, Picks(children, budgetLeft));
    if f.probing then GiveUpGuesses(g, guesses) else g
  }

  lemma AfterIndexSound(web: Web, origin: string, f: Frontier, truncated: bool, children: seq<string>, budgetLeft: int)
    requires f.queue != [] && Sound(web, origin, f, truncated) && web(f.queue[0]) == Index(children)
    ensures var cut := |Picks(children, budgetLeft)| < |children|;
            && Sound(web, origin, AfterIndex(Pop(f), children, budgetLeft, Guesses(origin)), truncated || cut)
            && AfterIndex(Pop(f), children, budgetLeft, Guesses(origin)).requested == Pop(f).requested
  {
    var (p, picks) := (Pop(f), Picks(children, budgetLeft));
    PopKeeps(web, origin, f, truncated);
    NoteAllKeeps(p, picks, Guesses(origin));
    GiveUpKeeps(NoteAll(p, picks), Guesses(origin));
    PicksAreChildren(children, budgetLeft);
  }

  /** The frontier after a urlset: a guess that had entries ends the guessing. */
  function AfterUrlSet(f: Frontier, items: seq<Item>, guesses: seq<string>): Frontier {
    if f.probing && items != [] then GiveUpGuesses(f, guesses) else f
  }

  /** How many more URLs fit the file budget behind those requested and waiting. */
  function BudgetLeft(maxFiles: int, f: Frontier): int { maxFiles - |f.requested| - |f.queue| }

  /** What one request does to the frontier; a failure or an HTML page only counts. */
  function Next(web: Web, origin: string, maxFiles: int, f: Frontier): Frontier
    requires f.queue != []
  {
    match web(f.queue[0])
    case Index(children) => AfterIndex(Pop(f), children, BudgetLeft(maxFiles, Pop(f)), Guesses(origin))
    case UrlSet(items) => AfterUrlSet(Pop(f), items, Guesses(origin))
    case _ => Pop(f)
  }

  /** The frontier after at most n requests. */
  function Walked(web: Web, origin: string, maxFiles: int, f: Frontier, n: nat): Frontier {
    if n == 0 then f
    else
      var g := Walked(web, origin, maxFiles, f, n - 1);
      if g.queue == [] then g else Next(web, origin, maxFiles, g)
  }

  lemma AfterUrlSetSound(web: Web, origin: string, f: Frontier, truncated: bool, items: seq<Item>)
    requires f.queue != [] && Planned(f) && Accounted(f, Guesses(origin)) && (!truncated ==> Followed(web, f))
    requires web(f.queue[0]) == UrlSet(items)
    ensures Sound(web, origin, AfterUrlSet(Pop(f), items, Guesses(origin)), truncated)
  {
    PopKeeps(web, origin, f, truncated);
    GiveUpKeeps(Pop(f), Guesses(origin));
  }

  // ------------------------------------------------------------------ the extrapolated size

  function Total(counts: seq<nat>): nat { if counts == [] then 0 else Total(counts[..|counts| - 1]) + counts[|counts| - 1] }

  /** The extrapolated size: unread children are taken to be as large as the average one read. */
  function Estimate(urlCount: nat, counts: seq<nat>, unread: nat): int
    requires counts != []
  {
    (urlCount as real + Total(counts) as real / |counts| as real * unread as real).Floor
  }

  lemma EstimateIsLarger(urlCount: nat, counts: seq<nat>, unread: nat)
    requires counts != []
    ensures Estimate(urlCount, counts, unread) >= urlCount
  {
    Share(Total(counts) as real, |counts| as real, unread as real);
  }

  lemma Share(sum: real, n: real, unread: real)
    requires sum >= 0.0 && n > 0.0 && unread >= 0.0
    ensures sum / n * unread >= 0.0
  {
    Ratio(sum, n);
    Product(sum / n, unread);
  }

  lemma Ratio(a: real, b: real)
    requires a >= 0.0 && b > 0.0
    ensures a / b >= 0.0
  {
  }

  // ------------------------------------------------------------------ what the requests amount to

  /** How many requests brought a sitemap and how many did not, and what the indexes declared and the urlsets held. */
  datatype Census = Census(fetched: nat, failed: nat, indexes: nat, declared: nat, parsed: nat)

  function Counting(k: Census, r: Response): Census {
    match r
    case Index(children) => k.(fetched := k.fetched + 1, indexes := k.indexes + 1, declared := k.declared + |children|)
    case UrlSet(items) => k.(fetched := k.fetched + 1, parsed := k.parsed + 1)
    case _ => k.(failed := k.failed + 1)
  }

  function CensusOf(web: Web, requested: seq<string>): Census {
    if requested == [] then Census(0, 0, 0, 0, 0)
    else Counting(CensusOf(web, requested[..|requested| - 1]), web(requested[|requested| - 1]))
  }

  /** The sizes of the urlsets among the requested URLs, in order. */
  function SizesOf(web: Web, requested: seq<string>): seq<nat> {
    if requested == [] then []
    else
      var (before, r) := (SizesOf(web, requested[..|requested| - 1]), web(requested[|requested| - 1]));
      if r.UrlSet? then before + [|r.items|] else before
  }

  lemma CensusSnoc(web: Web, requested: seq<string>, url: string)
    ensures CensusOf(web, requested + [url]) == Counting(CensusOf(web, requested), web(url))
    ensures SizesOf(web, requested + [url]) == if web(url).UrlSet? then SizesOf(web, requested) + [|web(url).items|] else SizesOf(web, requested)
  {
    assert (requested + [url])[..|requested|] == requested;
  }

  /** The next request is of an index with more children than the file budget has room for, one at least. */
  predicate Cut(web: Web, maxFiles: int, f: Frontier) {
    f.queue != [] && web(f.queue[0]).Index?
    && |web(f.queue[0]).children| > Max(maxFiles - (|f.requested| + 1) - (|f.queue| - 1), 1)
  }

  /** The entries read, and the average urlset for each child that the indexes declared beyond the urlsets parsed. */
  function Extrapolated(read: nat, k: Census, sizes: seq<nat>, truncated: bool): int {
    if truncated && sizes != [] && k.declared > k.parsed then Estimate(read, sizes, k.declared - k.parsed) else read
  }

  /** One of the first n requests met an index that was cut. */
  predicate CutBefore(web: Web, origin: string, maxFiles: int, start: Frontier, n: nat) {
    n > 0 && (CutBefore(web, origin, maxFiles, start, n - 1) || Cut(web, maxFiles, Walked(web, origin, maxFiles, start, n - 1)))
  }

  /** The URL budget stopped the reading of a urlset. */
  predicate Stopped(read: seq<Item>, maxUrls: int) { read != [] && |read| >= maxUrls }

  // ------------------------------------------------------------------ the walk

  class SitemapStats {
    var discovered: seq<string>
    var fetched: nat
    var failed: nat
    var indexes: nat
    var childrenDeclared: nat
    var childrenParsed: nat
    var tally: Tally
    var urlCountEstimated: int
    var truncated: bool
    var sampleUrls: seq<string>
    var errors: seq<string>

    constructor (urls: seq<string>)
      ensures discovered == urls && fetched == failed == indexes == childrenDeclared == childrenParsed == 0
      ensures tally == NOTHING && !truncated
    {
      discovered := urls;
      fetched, failed, indexes, childrenDeclared, childrenParsed := 0, 0, 0, 0, 0;
      tally, urlCountEstimated, truncated, sampleUrls, errors := NOTHING, 0, false, [], [];
    }

    function Counts(): Census
      reads this
    {
      Census(fetched, failed, indexes, childrenDeclared, childrenParsed)
    }

    method Discover(url: string, probing: bool)
      modifies `discovered
      ensures discovered == if probing && url !in old(discovered) then old(discovered) + [url] else old(discovered)
    {
      if probing && url !in discovered { discovered := discovered + [url]; }
    }

    /** A request that brought a sitemap. */
    method CountFetched(url: string, probing: bool)
      modifies `discovered, `fetched
      ensures fetched == old(fetched) + 1
    {
      Discover(url, probing);
      fetched := fetched + 1;
    }

    /** A request that brought a urlset. */
    method CountUrlSet(url: string, items: seq<Item>, probing: bool)
      modifies `discovered, `fetched, `childrenParsed
      ensures Counts() == Counting(old(Counts()), UrlSet(items))
    {
      CountFetched(url, probing);
      childrenParsed := childrenParsed + 1;
    }

    /** One entry of a urlset, counted and offered to the reservoir. */
    method ReadEntry(it: Item, now: int, sample: seq<string>, size: nat, ghost entries: seq<Item>) returns (r: seq<string>)
      requires tally == TallyOf(entries, now) && IsSample(sample, size, entries)
      modifies `tally
      ensures tally == TallyOf(entries + [it], now) && tally.urlCount == |entries| + 1
      ensures IsSample(r, size, entries + [it])
    {
      assert (entries + [it])[..|entries|] == entries;
      TallyOfKinds(entries, now);
      tally := CountEntry(tally, it, now);
      r := Reserve(sample, size, entries, it, tally.urlCount);
    }

    /** The entries of one urlset, up to the URL budget; read is all that was read so far. */
    method ReadEntries(items: seq<Item>, now: int, maxUrls: int, sample: seq<string>, size: nat, ghost entries: seq<Item>)
      returns (r: seq<string>, ghost read: seq<Item>)
      requires tally == TallyOf(entries, now) && IsSample(sample, size, entries)
      modifies `tally, `truncated
      ensures read == ReadUpTo(entries, items, maxUrls) && tally == TallyOf(read, now) && IsSample(r, size, read)
      ensures truncated <==> old(truncated) || (items != [] && Stopped(read, maxUrls))
      ensures Counts() == old(Counts())
    {
      r, read := sample, entries;
      var i := 0;
      assert items[0..] == items;
      while i < |items|
        invariant i <= |items| && ReadUpTo(read, items[i..], maxUrls) == ReadUpTo(entries, items, maxUrls)
        invariant tally == TallyOf(read, now) && IsSample(r, size, read)
        invariant truncated == old(truncated) && (i > 0 ==> !Stopped(read, maxUrls))
      {
        r := ReadEntry(items[i], now, r, size, read);
        assert items[i..][1..] == items[i + 1..];
        read := read + [items[i]];
        i := i + 1;
        if tally.urlCount >= maxUrls {
          truncated := true;
          return;
        }
      }
      assert items[i..] == [];
    }
  }

  /** Entries are read one by one until the URL budget is reached. */
  function ReadUpTo(read: seq<Item>, items: seq<Item>, maxUrls: int): seq<Item>
    decreases |items|
  {
    if items == [] then read
    else
      var r := read + [items[0]];
      if |r| >= maxUrls then r else ReadUpTo(r, items[1..], maxUrls)
  }

  /** What is read is a beginning of what there is, at least one entry, and all of it unless the budget was reached. */
  lemma {:induction false} ReadIsPrefix(entries: seq<Item>, items: seq<Item>, maxUrls: int)
    requires entries == [] || |entries| < maxUrls
    ensures var read := ReadUpTo(entries, items, maxUrls);
            && entries <= read <= entries + items && |read| <= Max(1, maxUrls)
            && (items != [] ==> |read| > |entries|)
            && (read == entries + items || (items != [] && Stopped(read, maxUrls)))
    decreases |items|
  {
    if items != [] {
      var r := entries + [items[0]];
      assert r + items[1..] == entries + items;
      if |r| < maxUrls { ReadIsPrefix(r, items[1..], maxUrls); }
    }
  }

  lemma AllItemsSnoc(web: Web, requested: seq<string>, url: string)
    ensures AllItems(web, requested + [url]) == AllItems(web, requested) + if web(url).UrlSet? then web(url).items else []
  {
    assert (requested + [url])[..|requested|] == requested;
  }

  /** The URL budget holds, and what it cut off shows as truncated. */
  ghost predicate Within(read: seq<Item>, all: seq<Item>, maxUrls: int, truncated: bool) {
    read <= all && |read| <= Max(1, maxUrls) && (read == all || (truncated && |read| >= maxUrls))
  }

  /** Everything read so far is kept and there is room for more, unless no room at all was asked for. */
  ghost predicate Open(read: seq<Item>, all: seq<Item>, maxUrls: int) { read == all && (read == [] || |read| < maxUrls) }

  /** An index: its entries counted, some of its children queued. */
  method TakeIndex(web: Web, origin: string, maxFiles: int, stats: SitemapStats, f: Frontier, children: seq<string>)
    returns (g: Frontier)
    requires f.queue != [] && Sound(web, origin, f, stats.truncated) && web(f.queue[0]) == Index(children)
    requires |Pop(f).requested| == stats.fetched + stats.failed
    modifies stats`indexes, stats`childrenDeclared, stats`truncated
    ensures g == AfterIndex(Pop(f), children, BudgetLeft(maxFiles, Pop(f)), Guesses(origin))
    ensures g.requested == Pop(f).requested && Sound(web, origin, g, stats.truncated)
    ensures stats.indexes == old(stats.indexes) + 1 && stats.childrenDeclared == old(stats.childrenDeclared) + |children|
    ensures stats.truncated <==> old(stats.truncated) || Cut(web, maxFiles, f)
  {
    stats.indexes := stats.indexes + 1;
    stats.childrenDeclared := stats.childrenDeclared + |children|;
    var budgetLeft := maxFiles - (stats.fetched + stats.failed) - |Pop(f).queue|;
    var picks := Picks(children, budgetLeft);
    AfterIndexSound(web, origin, f, stats.truncated, children, budgetLeft);
    g := Enqueue(Pop(f), picks);
    if f.probing { g := GiveUpGuesses(g, Guesses(origin)); }
    assert g == AfterIndex(Pop(f), children, budgetLeft, Guesses(origin));
    stats.truncated := stats.truncated || |picks| < |children|;
  }

  /** Where a urlset leaves the walk: what the URL budget allowed was read, and the loop stops if it is used up. */
  ghost predicate HasRead(web: Web, origin: string, g: Frontier, truncated: bool, read: seq<Item>, maxUrls: int, stop: bool) {
    && Sound(web, origin, g, truncated) && Within(read, AllItems(web, g.requested), maxUrls, truncated)
    && (stop <==> |read| >= maxUrls) && (!stop ==> Open(read, AllItems(web, g.requested), maxUrls))
  }

  /** A urlset: its entries counted and sampled as far as the URL budget goes. */
  method TakeUrlSet(web: Web, origin: string, maxUrls: int, now: int, size: nat, stats: SitemapStats, f: Frontier, items: seq<Item>,
                    sample: seq<string>, ghost entries: seq<Item>)
    returns (g: Frontier, s: seq<string>, ghost read: seq<Item>, stop: bool)
    requires f.queue != [] && Sound(web, origin, f, stats.truncated) && web(f.queue[0]) == UrlSet(items)
    requires stats.tally == TallyOf(entries, now) && IsSample(sample, size, entries) && Open(entries, AllItems(web, f.requested), maxUrls)
    modifies stats`discovered, stats`fetched, stats`tally, stats`truncated, stats`childrenParsed
    ensures g == AfterUrlSet(Pop(f), items, Guesses(origin)) && g.requested == f.requested + [f.queue[0]]
    ensures HasRead(web, origin, g, stats.truncated, read, maxUrls, stop) && (items != [] ==> read != [])
    ensures stats.tally == TallyOf(read, now) && IsSample(s, size, read)
    ensures stats.Counts() == Counting(old(stats.Counts()), web(f.queue[0]))
    ensures stats.truncated <==> old(stats.truncated) || (items != [] && Stopped(read, maxUrls))
  {
    g := AfterUrlSet(Pop(f), items, Guesses(origin));
    stats.CountUrlSet(f.queue[0], items, f.probing);
    s, read := stats.ReadEntries(items, now, maxUrls, sample, size, entries);
    ReadIsPrefix(entries, items, maxUrls);
    TallyOfKinds(read, now);
    stop := stats.tally.urlCount >= maxUrls;
    AfterUrlSetSound(web, origin, f, stats.truncated, items);
    AllItemsSnoc(web, f.requested, f.queue[0]);
  }

  /** A response that is no urlset brings no entries. */
  lemma NothingRead(web: Web, f: Frontier, entries: seq<Item>, maxUrls: int, truncated: bool)
    requires f.queue != [] && !web(f.queue[0]).UrlSet? && Open(entries, AllItems(web, f.requested), maxUrls)
    ensures Open(entries, AllItems(web, Pop(f).requested), maxUrls)
    ensures Within(entries, AllItems(web, Pop(f).requested), maxUrls, truncated)
  {
    AllItemsSnoc(web, f.requested, f.queue[0]);
  }

  /** A request that failed, or answered with a page instead of a sitemap. */
  method TakeFailure(stats: SitemapStats, url: string, r: Response, probing: bool)
    requires r.Failed? || r.Html?
    modifies stats`failed, stats`errors, stats`discovered
    ensures stats.failed == old(stats.failed) + 1
  {
    stats.failed := stats.failed + 1;
    if r.Html? {
      stats.Discover(url, probing);
    } else {
      var quiet := r.status.None? || r.status.value == 404 || r.status.value == 403 || r.status.value == 410;
      if !quiet || !probing { stats.errors := stats.errors + [url]; }
    }
  }

  /** A response without entries: an index, or no sitemap at all. */
  method TakeOther(web: Web, origin: string, maxFiles: int, stats: SitemapStats, f: Frontier) returns (g: Frontier)
    requires f.queue != [] && Sound(web, origin, f, stats.truncated) && |f.requested| == stats.fetched + stats.failed
    requires !web(f.queue[0]).UrlSet?
    modifies stats`fetched, stats`failed, stats`discovered, stats`errors, stats`indexes, stats`childrenDeclared, stats`truncated
    ensures g == Next(web, origin, maxFiles, f) && g.requested == f.requested + [f.queue[0]]
    ensures Sound(web, origin, g, stats.truncated)
    ensures stats.Counts() == Counting(old(stats.Counts()), web(f.queue[0]))
    ensures stats.truncated <==> old(stats.truncated) || Cut(web, maxFiles, f)
  {
    var url := f.queue[0];
    if web(url).Index? {
      stats.CountFetched(url, f.probing);
      g := TakeIndex(web, origin, maxFiles, stats, f, web(url).children);
    } else {
      PopKeeps(web, origin, f, stats.truncated);
      TakeFailure(stats, url, web(url), f.probing);
      g := Pop(f);
    }
  }

  lemma NextOfUrlSet(web: Web, origin: string, maxFiles: int, f: Frontier, items: seq<Item>)
    requires f.queue != [] && web(f.queue[0]) == UrlSet(items)
    ensures Next(web, origin, maxFiles, f) == AfterUrlSet(Pop(f), items, Guesses(origin))
  {
  }

  /** The last lines: whether anything was left out, and the extrapolated size. */
  method Finish(stats: SitemapStats, waiting: bool, counts: seq<nat>, sample: seq<string>)
    modifies stats`truncated, stats`urlCountEstimated, stats`sampleUrls
    ensures stats.truncated <==> old(stats.truncated) || waiting
    ensures stats.urlCountEstimated == Extrapolated(stats.tally.urlCount, stats.Counts(), counts, stats.truncated)
    ensures stats.urlCountEstimated >= stats.tally.urlCount && stats.sampleUrls == sample
    ensures !stats.truncated ==> stats.urlCountEstimated == stats.tally.urlCount
  {
    if waiting { stats.truncated := true; }
    stats.sampleUrls := sample;
    stats.urlCountEstimated := stats.tally.urlCount;
    // children_total counts the same as children_declared.
    if stats.truncated && counts != [] && stats.childrenDeclared > stats.childrenParsed {
      EstimateIsLarger(stats.tally.urlCount, counts, stats.childrenDeclared - stats.childrenParsed);
      stats.urlCountEstimated := Estimate(stats.tally.urlCount, counts, stats.childrenDeclared - stats.childrenParsed);
    }
  }

  /** Nothing declared was skipped, unless it is one of the guesses given up. */
  ghost predicate Complete(web: Web, origin: string, robots: seq<string>, requested: seq<string>) {
    && (forall u | u in robots :: u in requested || u in Guesses(origin))
    && forall u | u in requested && web(u).Index? :: forall c | c in web(u).children :: c in requested || c in Guesses(origin)
  }

  lemma EmptyQueueIsComplete(web: Web, origin: string, robots: seq<string>, f: Frontier)
    requires Sound(web, origin, f, false) && f.queue == [] && forall u | u in robots :: u in f.seen
    ensures Complete(web, origin, robots, f.requested)
  {
    assert f.requested + f.queue == f.requested;
  }

  lemma RequestedAreDistinct(f: Frontier)
    requires Planned(f)
    ensures Distinct(f.requested)
  {
    assert forall i | 0 <= i < |f.requested| :: (f.requested + f.queue)[i] == f.requested[i];
  }

  lemma {:induction false} WalkedRequests(web: Web, origin: string, maxFiles: int, f: Frontier, n: nat)
    ensures |Walked(web, origin, maxFiles, f, n).requested| <= |f.requested| + n
    ensures |Walked(web, origin, maxFiles, f, n).requested| == |f.requested| + n || Walked(web, origin, maxFiles, f, n).queue == []
    ensures f.seen <= Walked(web, origin, maxFiles, f, n).seen
  {
    if n > 0 {
      WalkedRequests(web, origin, maxFiles, f, n - 1);
      var g := Walked(web, origin, maxFiles, f, n - 1);
      if g.queue != [] { NextRequests(web, origin, maxFiles, g); }
    }
  }

  /** Each request is of the URL that waited longest. */
  lemma NextRequests(web: Web, origin: string, maxFiles: int, f: Frontier)
    requires f.queue != []
    ensures Next(web, origin, maxFiles, f).requested == f.requested + [f.queue[0]]
    ensures f.seen <= Next(web, origin, maxFiles, f).seen
  {
    match web(f.queue[0]) {
      case Index(children) =>
        NotedRequests(Pop(f), Picks(children, BudgetLeft(maxFiles, Pop(f))));
      case _ =>
    }
  }

  lemma {:induction false} NotedRequests(f: Frontier, urls: seq<string>)
    ensures NoteAll(f, urls).requested == f.requested && f.seen <= NoteAll(f, urls).seen
  {
    if urls != [] { NotedRequests(f, urls[..|urls| - 1]); }
  }

  // ------------------------------------------------------------------ what is read, in terms of the walk

  predicate HasUrlSet(web: Web, requested: seq<string>) { exists i | 0 <= i < |requested| :: web(requested[i]).UrlSet? }

  /** The entries of the first urlset among the URLs. */
  function FirstUrlSet(web: Web, requested: seq<string>): seq<Item> {
    if requested == [] then []
    else
      var front := requested[..|requested| - 1];
      var r := web(requested[|requested| - 1]);
      if HasUrlSet(web, front) then FirstUrlSet(web, front) else if r.UrlSet? then r.items else []
  }

  /** The first max_urls entries; with a budget below one the first entry of the first urlset, which ends the walk. */
  function Allowed(web: Web, requested: seq<string>, maxUrls: int): seq<Item> {
    if maxUrls >= 1 then Take(AllItems(web, requested), maxUrls) else Take(FirstUrlSet(web, requested), 1)
  }

  /** Whether the URL budget has ended the walk after these requests. */
  predicate Exhausted(web: Web, requested: seq<string>, maxUrls: int) {
    if maxUrls >= 1 then |AllItems(web, requested)| >= maxUrls else HasUrlSet(web, requested)
  }

  lemma HasUrlSetSnoc(web: Web, requested: seq<string>, url: string)
    ensures HasUrlSet(web, requested + [url]) <==> HasUrlSet(web, requested) || web(url).UrlSet?
    ensures FirstUrlSet(web, requested + [url]) ==
            if HasUrlSet(web, requested) then FirstUrlSet(web, requested) else if web(url).UrlSet? then web(url).items else []
  {
    var all := requested + [url];
    assert all[..|requested|] == requested;
    if HasUrlSet(web, requested) {
      var i :| 0 <= i < |requested| && web(requested[i]).UrlSet?;
      assert web(all[i]).UrlSet?;
    }
    if web(url).UrlSet? { assert web(all[|requested|]).UrlSet?; }
  }

  lemma {:induction false} NothingWithoutUrlSet(web: Web, requested: seq<string>)
    requires !HasUrlSet(web, requested)
    ensures AllItems(web, requested) == [] && FirstUrlSet(web, requested) == []
  {
    if requested != [] {
      var front := requested[..|requested| - 1];
      assert requested == front + [requested[|front|]];
      HasUrlSetSnoc(web, front, requested[|front|]);
      NothingWithoutUrlSet(web, front);
    }
  }

  /** Until the URL budget ends the walk everything is read, and there is room for more. */
  lemma AllowedIsOpen(web: Web, requested: seq<string>, maxUrls: int)
    requires !Exhausted(web, requested, maxUrls)
    ensures Open(Allowed(web, requested, maxUrls), AllItems(web, requested), maxUrls)
  {
    if maxUrls < 1 { NothingWithoutUrlSet(web, requested); }
  }

  /** What one more request changes, for a walk the URL budget has not ended. */
  lemma AllowedNext(web: Web, requested: seq<string>, url: string, entries: seq<Item>, read: seq<Item>, maxUrls: int, stop: bool)
    requires !Exhausted(web, requested, maxUrls) && entries == AllItems(web, requested)
    requires Within(read, AllItems(web, requested + [url]), maxUrls, true)
    requires if web(url).UrlSet? then (stop <==> |read| >= maxUrls) && (web(url).items != [] ==> read != []) else !stop && read == entries
    ensures read == Allowed(web, requested + [url], maxUrls) && (stop <==> Exhausted(web, requested + [url], maxUrls))
  {
    AllItemsSnoc(web, requested, url);
    HasUrlSetSnoc(web, requested, url);
    if maxUrls < 1 { NothingWithoutUrlSet(web, requested); }
  }

  lemma {:induction false} AllItemsGrows(web: Web, a: seq<string>, b: seq<string>)
    requires a <= b
    ensures AllItems(web, a) <= AllItems(web, b)
    ensures HasUrlSet(web, a) ==> HasUrlSet(web, b) && FirstUrlSet(web, b) == FirstUrlSet(web, a)
    decreases |b|
  {
    if |a| < |b| {
      var front := b[..|b| - 1];
      AllItemsGrows(web, a, front);
      assert b == front + [b[|b| - 1]];
      HasUrlSetSnoc(web, front, b[|b| - 1]);
    } else {
      assert a == b;
    }
  }

  /** Requests after the URL budget has ended the walk would not change what is read. */
  lemma AllowedIsFinal(web: Web, a: seq<string>, b: seq<string>, maxUrls: int)
    requires a <= b && (a == b || Exhausted(web, a, maxUrls))
    ensures Allowed(web, b, maxUrls) == Allowed(web, a, maxUrls)
  {
    AllItemsGrows(web, a, b);
  }

  /** The URLs the walk asks for within the file budget, were there no URL budget. */
  function FullWalk(web: Web, origin: string, robots: seq<string>, maxFiles: int): seq<string> {
    Walked(web, origin, maxFiles, Initial(origin, robots), Max(0, maxFiles)).requested
  }

  lemma {:induction false} WalkedGrows(web: Web, origin: string, maxFiles: int, f: Frontier, n: nat, m: nat)
    requires n <= m
    ensures Walked(web, origin, maxFiles, f, n).requested <= Walked(web, origin, maxFiles, f, m).requested
    ensures Walked(web, origin, maxFiles, f, n).queue == [] ==> Walked(web, origin, maxFiles, f, m) == Walked(web, origin, maxFiles, f, n)
    decreases m
  {
    if n < m {
      WalkedGrows(web, origin, maxFiles, f, n, m - 1);
      WalkedOnce(web, origin, maxFiles, f, m);
    }
  }

  lemma WalkedOnce(web: Web, origin: string, maxFiles: int, f: Frontier, m: nat)
    requires m > 0
    ensures Walked(web, origin, maxFiles, f, m - 1).requested <= Walked(web, origin, maxFiles, f, m).requested
    ensures Walked(web, origin, maxFiles, f, m - 1).queue == [] ==> Walked(web, origin, maxFiles, f, m) == Walked(web, origin, maxFiles, f, m - 1)
  {
    var g := Walked(web, origin, maxFiles, f, m - 1);
    if g.queue != [] { NextRequests(web, origin, maxFiles, g); }
  }

  /** Where the walk ends, what it read is what the full walk allows, and every robots sitemap was noted. */
  lemma WalkEnds(web: Web, origin: string, robots: seq<string>, maxFiles: int, maxUrls: int, f: Frontier)
    requires f == Walked(web, origin, maxFiles, Initial(origin, robots), |f.requested|) && |f.requested| <= Max(0, maxFiles)
    requires f.queue == [] || |f.requested| >= maxFiles || Exhausted(web, f.requested, maxUrls)
    ensures Allowed(web, FullWalk(web, origin, robots, maxFiles), maxUrls) == Allowed(web, f.requested, maxUrls)
    ensures Initial(origin, robots).seen <= f.seen
  {
    var (start, walk, n, m) := (Initial(origin, robots), FullWalk(web, origin, robots, maxFiles), |f.requested|, Max(0, maxFiles));
    WalkedRequests(web, origin, maxFiles, start, n);
    WalkedGrows(web, origin, maxFiles, start, n, m);
    if f.queue == [] || n >= maxFiles { assert walk == f.requested; }
    AllowedIsFinal(web, f.requested, walk, maxUrls);
  }

  /** How far a walk has come: the frontier, the counters, and what was read within the URL budget. */
  datatype Walk = Walk(f: Frontier, k: Census, truncated: bool, counts: seq<nat>, read: seq<Item>, stop: bool)

  ghost predicate Walking(web: Web, origin: string, maxFiles: int, maxUrls: int, start: Frontier, w: Walk) {
    match w
    case Walk(f, k, truncated, counts, read, stop) =>
      && Sound(web, origin, f, truncated) && f == Walked(web, origin, maxFiles, start, |f.requested|)
      && k == CensusOf(web, f.requested) && |f.requested| == k.fetched + k.failed && counts == SizesOf(web, f.requested)
      && (truncated <==> CutBefore(web, origin, maxFiles, start, |f.requested|) || Stopped(read, maxUrls))
      && Within(read, AllItems(web, f.requested), maxUrls, truncated)
      && read == Allowed(web, f.requested, maxUrls) && (stop <==> Exhausted(web, f.requested, maxUrls))
  }

  /** One request more, as the body of the loop leaves things. */
  lemma WalkingNext(web: Web, origin: string, maxFiles: int, maxUrls: int, start: Frontier, f: Frontier, k: Census, truncated: bool,
                    counts: seq<nat>, read: seq<Item>, g: Frontier, truncated': bool, read': seq<Item>, stop': bool)
    requires Walking(web, origin, maxFiles, maxUrls, start, Walk(f, k, truncated, counts, read, false)) && f.queue != []
    requires g == Next(web, origin, maxFiles, f) && g.requested == f.requested + [f.queue[0]] && Sound(web, origin, g, truncated')
    requires truncated' <==> truncated || Cut(web, maxFiles, f) || Stopped(read', maxUrls)
    requires Within(read', AllItems(web, g.requested), maxUrls, truncated') && read' == Allowed(web, g.requested, maxUrls)
    requires stop' <==> Exhausted(web, g.requested, maxUrls)
    ensures Walking(web, origin, maxFiles, maxUrls, start, Walk(g, Counting(k, web(f.queue[0])), truncated',
                    if web(f.queue[0]).UrlSet? then counts + [|web(f.queue[0]).items|] else counts, read', stop'))
  {
    CensusSnoc(web, f.requested, f.queue[0]);
    AllowedIsOpen(web, f.requested, maxUrls);
  }

  /** The body of the loop for a urlset: as many of its entries are read as the URL budget allows. */
  method WalkUrlSet(web: Web, origin: string, maxFiles: int, maxUrls: int, now: int, size: nat, stats: SitemapStats, ghost start: Frontier, f: Frontier,
                    items: seq<Item>, sample: seq<string>, counts: seq<nat>, ghost entries: seq<Item>, ghost k: Census)
    returns (g: Frontier, s: seq<string>, c: seq<nat>, ghost read: seq<Item>, stop: bool, ghost truncated: bool)
    requires f.queue != [] && Walking(web, origin, maxFiles, maxUrls, start, Walk(f, k, stats.truncated, counts, entries, false)) && stats.Counts() == k
    requires stats.tally == TallyOf(entries, now) && IsSample(sample, size, entries) && web(f.queue[0]) == UrlSet(items)
    modifies stats`discovered, stats`fetched, stats`tally, stats`truncated, stats`childrenParsed
    ensures Walking(web, origin, maxFiles, maxUrls, start, Walk(g, Counting(k, UrlSet(items)), truncated, c, read, stop))
    ensures truncated == stats.truncated && stats.Counts() == Counting(k, UrlSet(items))
    ensures |g.requested| == |f.requested| + 1 && stats.tally == TallyOf(read, now) && IsSample(s, size, read)
  {
    ghost var was := stats.truncated;
    CanRead(web, origin, maxFiles, maxUrls, start, f, k, was, counts, entries);
    g, s, read, stop := TakeUrlSet(web, origin, maxUrls, now, size, stats, f, items, sample, entries);
    truncated := stats.truncated;
    var n: nat := |items|;
    c := counts + [n];
    UrlSetNext(web, origin, maxFiles, maxUrls, start, f, k, was, counts, entries, items, g, truncated, read, stop);
  }

  lemma CanRead(web: Web, origin: string, maxFiles: int, maxUrls: int, start: Frontier, f: Frontier, k: Census, truncated: bool,
                counts: seq<nat>, entries: seq<Item>)
    requires Walking(web, origin, maxFiles, maxUrls, start, Walk(f, k, truncated, counts, entries, false))
    ensures Open(entries, AllItems(web, f.requested), maxUrls)
  {
    AllowedIsOpen(web, f.requested, maxUrls);
  }

  lemma UrlSetNext(web: Web, origin: string, maxFiles: int, maxUrls: int, start: Frontier, f: Frontier, k: Census, truncated: bool,
                   counts: seq<nat>, entries: seq<Item>, items: seq<Item>, g: Frontier, truncated': bool, read: seq<Item>, stop: bool)
    requires Walking(web, origin, maxFiles, maxUrls, start, Walk(f, k, truncated, counts, entries, false)) && f.queue != [] && web(f.queue[0]) == UrlSet(items)
    requires g == AfterUrlSet(Pop(f), items, Guesses(origin)) && g.requested == f.requested + [f.queue[0]]
    requires HasRead(web, origin, g, truncated', read, maxUrls, stop) && (items != [] ==> read != [])
    requires truncated' <==> truncated || (items != [] && Stopped(read, maxUrls))
    ensures Walking(web, origin, maxFiles, maxUrls, start, Walk(g, Counting(k, UrlSet(items)), truncated', counts + [|items|], read, stop))
  {
    AllowedIsOpen(web, f.requested, maxUrls);
    NextOfUrlSet(web, origin, maxFiles, f, items);
    AllowedNext(web, f.requested, f.queue[0], entries, read, maxUrls, stop);
    AllItemsSnoc(web, f.requested, f.queue[0]);
    WalkingNext(web, origin, maxFiles, maxUrls, start, f, k, truncated, counts, entries, g, truncated', read, stop);
  }

  /** The body of the loop for an index, a page or a failure: nothing is read. */
  method WalkOther(web: Web, origin: string, maxFiles: int, maxUrls: int, stats: SitemapStats, ghost start: Frontier, f: Frontier,
                   ghost counts: seq<nat>, ghost entries: seq<Item>)
    returns (g: Frontier)
    requires f.queue != [] && Walking(web, origin, maxFiles, maxUrls, start, Walk(f, stats.Counts(), stats.truncated, counts, entries, false))
    requires !web(f.queue[0]).UrlSet?
    modifies stats
    ensures Walking(web, origin, maxFiles, maxUrls, start, Walk(g, stats.Counts(), stats.truncated, counts, entries, false))
    ensures |g.requested| == |f.requested| + 1 && stats.tally == old(stats.tally)
  {
    ghost var (k, truncated) := (stats.Counts(), stats.truncated);
    AllowedIsOpen(web, f.requested, maxUrls);
    g := TakeOther(web, origin, maxFiles, stats, f);
    NothingRead(web, f, entries, maxUrls, stats.truncated);
    AllowedNext(web, f.requested, f.queue[0], entries, entries, maxUrls, false);
    WalkingNext(web, origin, maxFiles, maxUrls, start, f, k, truncated, counts, entries, g, stats.truncated, entries, false);
  }

  /** The body of the loop: one more request of a walk that the URL budget has not ended; stop says that it does now. */
  method WalkOnce(web: Web, origin: string, maxFiles: int, maxUrls: int, now: int, size: nat, stats: SitemapStats, ghost start: Frontier, f: Frontier,
                  sample: seq<string>, counts: seq<nat>, ghost entries: seq<Item>)
    returns (g: Frontier, s: seq<string>, c: seq<nat>, ghost read: seq<Item>, stop: bool)
    requires f.queue != [] && Walking(web, origin, maxFiles, maxUrls, start, Walk(f, stats.Counts(), stats.truncated, counts, entries, false))
    requires stats.tally == TallyOf(entries, now) && IsSample(sample, size, entries)
    modifies stats
    ensures Walking(web, origin, maxFiles, maxUrls, start, Walk(g, stats.Counts(), stats.truncated, c, read, stop))
    ensures |g.requested| == |f.requested| + 1 && stats.tally == TallyOf(read, now) && IsSample(s, size, read)
  {
    if web(f.queue[0]).UrlSet? {
      ghost var truncated;
      g, s, c, read, stop, truncated := WalkUrlSet(web, origin, maxFiles, maxUrls, now, size, stats, start, f, web(f.queue[0]).items, sample, counts, entries, stats.Counts());
    } else {
      s, c, read, stop := sample, counts, entries, false;
      g := WalkOther(web, origin, maxFiles, maxUrls, stats, start, f, counts, entries);
    }
  }

  lemma WalkingStarts(web: Web, origin: string, maxFiles: int, maxUrls: int, start: Frontier)
    requires start.requested == [] && Sound(web, origin, start, false)
    ensures Walking(web, origin, maxFiles, maxUrls, start, Walk(start, Census(0, 0, 0, 0, 0), false, [], [], false))
  {
  }

  /** The loop: one request after the other while URLs wait and both budgets last. */
  method WalkOn(web: Web, origin: string, maxFiles: int, maxUrls: int, size: nat, now: int, stats: SitemapStats, start: Frontier)
    returns (f: Frontier, sample: seq<string>, counts: seq<nat>, ghost read: seq<Item>)
    requires start.requested == [] && Sound(web, origin, start, stats.truncated)
    requires stats.Counts() == Census(0, 0, 0, 0, 0) && stats.tally == NOTHING && !stats.truncated
    modifies stats
    ensures exists stop :: Walking(web, origin, maxFiles, maxUrls, start, Walk(f, stats.Counts(), stats.truncated, counts, read, stop))
    ensures |f.requested| <= Max(0, maxFiles) && stats.tally == TallyOf(read, now) && IsSample(sample, size, read)
    ensures f.queue == [] || |f.requested| >= maxFiles || Exhausted(web, f.requested, maxUrls)
  {
    f, sample, counts, read := start, [], [], [];
    var stop := false;
    WalkingStarts(web, origin, maxFiles, maxUrls, start);
    while !stop && f.queue != [] && stats.fetched + stats.failed < maxFiles
      invariant Walking(web, origin, maxFiles, maxUrls, start, Walk(f, stats.Counts(), stats.truncated, counts, read, stop))
      invariant |f.requested| <= Max(0, maxFiles) && stats.tally == TallyOf(read, now) && IsSample(sample, size, read)
      decreases maxFiles - |f.requested|
    {
      f, sample, counts, read, stop := WalkOnce(web, origin, maxFiles, maxUrls, now, size, stats, start, f, sample, counts, read);
    }
  }

  /**
   * requested and read are the walk's history: the URLs asked for, in order, and the entries read from them. The walk
   * is the breadth-first one, and it ends only for want of URLs, or because one of the budgets is used up.
   */
  method CollectSitemaps(web: Web, origin: string, robots: seq<string>, maxFiles: int, maxUrls: int, size: nat, now: int)
    returns (stats: SitemapStats, ghost requested: seq<string>, ghost read: seq<Item>)
    ensures fresh(stats)
    ensures |requested| == stats.fetched + stats.failed <= Max(0, maxFiles) && Distinct(requested)
    ensures stats.tally == TallyOf(read, now) && IsSample(stats.sampleUrls, size, read)
    ensures Within(read, AllItems(web, requested), maxUrls, stats.truncated)
    ensures stats.urlCountEstimated >= stats.tally.urlCount
    ensures !stats.truncated ==> Complete(web, origin, robots, requested) && stats.urlCountEstimated == stats.tally.urlCount
    ensures var end := Walked(web, origin, maxFiles, Initial(origin, robots), |requested|);
            requested == end.requested && (end.queue == [] || |requested| >= maxFiles || Exhausted(web, requested, maxUrls))
    ensures read == Allowed(web, FullWalk(web, origin, robots, maxFiles), maxUrls)
    ensures stats.Counts() == CensusOf(web, requested)
    ensures stats.truncated <==>
              || CutBefore(web, origin, maxFiles, Initial(origin, robots), |requested|) || Stopped(read, maxUrls)
              || Walked(web, origin, maxFiles, Initial(origin, robots), |requested|).queue != []
    ensures stats.urlCountEstimated == Extrapolated(|read|, CensusOf(web, requested), SizesOf(web, requested), stats.truncated)
    ensures stats.tally.urlCount <= maxUrls <==>
            maxUrls >= 1 || (maxUrls == 0 && FirstUrlSet(web, FullWalk(web, origin, robots, maxFiles)) == [])
  {
    var start := Start(origin, robots);
    stats := new SitemapStats(if start.probing then [] else start.queue);
    var f, sample, counts;
    f, sample, counts, read := WalkOn(web, origin, maxFiles, maxUrls, size, now, stats, start);
    Finish(stats, f.queue != [], counts, sample);
    requested := f.requested;
    RequestedAreDistinct(f);
    WalkEnds(web, origin, robots, maxFiles, maxUrls, f);
    UrlBudget(web, origin, robots, maxFiles, maxUrls);
    TallyOfKinds(read, now);
    if !stats.truncated { EmptyQueueIsComplete(web, origin, robots, f); }
  }

  /** The count stays within the URL budget exactly if that is positive, or zero and the first urlset of the walk is empty. */
  lemma UrlBudget(web: Web, origin: string, robots: seq<string>, maxFiles: int, maxUrls: int)
    ensures var walk := FullWalk(web, origin, robots, maxFiles);
            |Allowed(web, walk, maxUrls)| <= maxUrls <==> maxUrls >= 1 || (maxUrls == 0 && FirstUrlSet(web, walk) == [])
  {
  }

  const ONE_SITEMAP := ["https://a/sitemap.xml"]

  /** A site that answers every request with the same one entry. */
  function OneEntry(it: Item): Web { (url: string) => UrlSet([it]) }

  lemma OneSitemapStart()
    ensures Initial("https://a", ONE_SITEMAP) == Frontier([], ONE_SITEMAP, {ONE_SITEMAP[0]}, false)
  {
    assert ONE_SITEMAP[..0] == [];
    assert NoteAll(Frontier([], [], {}, false), []) == Frontier([], [], {}, false);
  }

  lemma OneSitemapWalk(it: Item)
    ensures FullWalk(OneEntry(it), "https://a", ONE_SITEMAP, 1) == ONE_SITEMAP
  {
    var start := Initial("https://a", ONE_SITEMAP);
    OneSitemapStart();
    assert Walked(OneEntry(it), "https://a", 1, start, 0) == start;
    NextRequests(OneEntry(it), "https://a", 1, start);
  }

  lemma OneEntryFirst(it: Item)
    ensures FirstUrlSet(OneEntry(it), ONE_SITEMAP) == [it]
  {
    assert ONE_SITEMAP[..0] == [];
  }

  /** It happens: a site with one sitemap of one entry, walked with a URL budget of zero. */
  method ZeroBudgetReadsOne(it: Item) returns (stats: SitemapStats)
    ensures stats.tally.urlCount == 1
  {
    ghost var requested, read;
    stats, requested, read := CollectSitemaps(OneEntry(it), "https://a", ONE_SITEMAP, 1, 0, 40, 0);
    OneSitemapWalk(it);
    OneEntryFirst(it);
    TallyOfKinds(read, 0);
  }
}
