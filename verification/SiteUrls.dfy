/** The URLs a crawl or map starts from: deduplicated by page identity, with a share of the budget for products. */
module SiteUrls {
  import opened Common

  /**
   * URL parsing (with the fragment removed), the identity of a page and the crawl's scope: how they read a string is
   * left open.
   */
  datatype Site = Site(parse: string -> Option<string>, key: string -> string, admits: string -> bool)

  // ------------------------------------------------------------------ first page of each identity

  predicate HasKey(site: Site, urls: seq<string>, k: string) { exists i | 0 <= i < |urls| :: site.key(urls[i]) == k }

  function Offer(site: Site, out: seq<string>, raw: string): seq<string> {
    match site.parse(raw)
    case None => out
    case Some(href) => if HasKey(site, out, site.key(href)) then out else out + [href]
  }

  /** start and the first n candidates offered in turn. */
  function Listed(site: Site, start: string, candidates: seq<string>, n: nat): seq<string>
    requires n <= |candidates|
  {
    if n == 0 then Offer(site, [], start)
    else
      var before := Listed(site, start, candidates, n - 1);
      if site.admits(candidates[n - 1]) then Offer(site, before, candidates[n - 1]) else before
  }

  function ListedAll(site: Site, start: string, candidates: seq<string>): seq<string> {
    Listed(site, start, candidates, |candidates|)
  }

  predicate DistinctKeys(site: Site, urls: seq<string>) {
    forall i, j | 0 <= i < j < |urls| :: site.key(urls[i]) != site.key(urls[j])
  }

  lemma {:induction false} ListedIsDistinct(site: Site, start: string, candidates: seq<string>, n: nat)
    requires n <= |candidates|
    ensures DistinctKeys(site, Listed(site, start, candidates, n))
  {
    if n > 0 { ListedIsDistinct(site, start, candidates, n - 1); }
  }

  lemma {:induction false} ListedGrows(site: Site, start: string, candidates: seq<string>, n: nat, m: nat)
    requires n <= m <= |candidates|
    ensures Listed(site, start, candidates, n) <= Listed(site, start, candidates, m)
    decreases m
  {
    if n < m { ListedGrows(site, start, candidates, n, m - 1); }
  }

  /** Nothing in scope is missing: every admitted candidate's page is listed. */
  lemma ListedIsComplete(site: Site, start: string, candidates: seq<string>, n: nat, j: nat)
    requires j < n <= |candidates| && site.admits(candidates[j]) && site.parse(candidates[j]).Some?
    ensures HasKey(site, Listed(site, start, candidates, n), site.key(site.parse(candidates[j]).value))
  {
    var (urls, k) := (Listed(site, start, candidates, j + 1), site.key(site.parse(candidates[j]).value));
    if !HasKey(site, Listed(site, start, candidates, j), k) { assert site.key(urls[|urls| - 1]) == k; }
    var i :| 0 <= i < |urls| && site.key(urls[i]) == k;
    ListedGrows(site, start, candidates, j + 1, n);
    assert site.key(Listed(site, start, candidates, n)[i]) == k;
  }

  /** Where each listed URL comes from: 0 for start, j + 1 for candidate j. */
  function Origins(site: Site, start: string, candidates: seq<string>, n: nat): seq<nat>
    requires n <= |candidates|
  {
    if n == 0 then if site.parse(start).Some? then [0] else []
    else
      var before := Origins(site, start, candidates, n - 1);
      if |Listed(site, start, candidates, n)| > |Listed(site, start, candidates, n - 1)| then before + [n] else before
  }

  predicate ComesFrom(site: Site, start: string, candidates: seq<string>, href: string, o: nat) {
    if o == 0 then site.parse(start) == Some(href)
    else o <= |candidates| && site.admits(candidates[o - 1]) && site.parse(candidates[o - 1]) == Some(href)
  }

  /** The list is in the order of its origins, each an admitted candidate that parses to it. */
  lemma {:induction false} ListedInOrder(site: Site, start: string, candidates: seq<string>, n: nat)
    requires n <= |candidates|
    ensures var (urls, from) := (Listed(site, start, candidates, n), Origins(site, start, candidates, n));
            && |urls| == |from|
            && (forall i | 0 <= i < |from| :: from[i] <= n && ComesFrom(site, start, candidates, urls[i], from[i]))
            && forall i, j | 0 <= i < j < |from| :: from[i] < from[j]
  {
    if n > 0 { ListedInOrder(site, start, candidates, n - 1); }
  }

  /** max None stands for Infinity. */
  method Collect(site: Site, start: string, candidates: seq<string>, max: Option<nat>) returns (out: seq<string>)
    ensures var all := ListedAll(site, start, candidates);
            out == if max.None? || |all| <= max.value then all
                   else all[..Max(max.value, |Offer(site, [], start)|)]
  {
    var seen: set<string> := {};
    out := [];
    out, seen := AddUrl(site, out, seen, start);
    ghost var first := |out|;
    var n := 0;
    while n < |candidates|
      invariant n <= |candidates| && out == Listed(site, start, candidates, n) && Tracks(site, out, seen)
      invariant first <= |out| && (max.Some? ==> |out| <= Max(max.value, first))
    {
      ListedGrows(site, start, candidates, n, |candidates|);
      ListedGrows(site, start, candidates, 0, |candidates|);
      if max.Some? && |out| >= max.value { return; }
      if site.admits(candidates[n]) { out, seen := AddUrl(site, out, seen, candidates[n]); }
      n := n + 1;
    }
  }

  /** seen holds exactly the keys of the URLs kept. */
  ghost predicate Tracks(site: Site, urls: seq<string>, seen: set<string>) {
    forall k :: k in seen <==> HasKey(site, urls, k)
  }

  method AddUrl(site: Site, urls: seq<string>, known: set<string>, raw: string) returns (out: seq<string>, seen: set<string>)
    requires Tracks(site, urls, known)
    ensures out == Offer(site, urls, raw) && Tracks(site, out, seen)
  {
    out, seen := urls, known;
    var href := site.parse(raw);
    if href.None? { return; }
    var key := site.key(href.value);
    if key in seen { return; }
    seen := seen + {key};
    out := out + [href.value];
    forall k ensures k in seen <==> HasKey(site, out, k) {
      if HasKey(site, urls, k) {
        var i :| 0 <= i < |urls| && site.key(urls[i]) == k;
        assert site.key(out[i]) == k;
      }
      assert site.key(out[|urls|]) == key;
    }
  }

  // ------------------------------------------------------------------ products and other pages

  function WithoutPagesOf(site: Site, urls: seq<string>, products: seq<string>): (r: seq<string>) {
    if urls == [] then []
    else
      var rest := WithoutPagesOf(site, urls[..|urls| - 1], products);
      var last := urls[|urls| - 1];
      if HasKey(site, products, site.key(last)) then rest else rest + [last]
  }

  lemma {:induction false} WithoutKeeps(site: Site, urls: seq<string>, products: seq<string>)
    requires DistinctKeys(site, urls)
    ensures var r := WithoutPagesOf(site, urls, products);
            && DistinctKeys(site, r)
            && (forall i | 0 <= i < |r| :: r[i] in urls && !HasKey(site, products, site.key(r[i])))
            && (forall u | u in urls && !HasKey(site, products, site.key(u)) :: u in r)
  {
    if urls != [] {
      var front := urls[..|urls| - 1];
      WithoutKeeps(site, front, products);
      var r := WithoutPagesOf(site, front, products);
      assert urls == front + [urls[|urls| - 1]];
      forall i | 0 <= i < |r| ensures site.key(r[i]) != site.key(urls[|urls| - 1]) {
        var j :| 0 <= j < |front| && front[j] == r[i];
        assert site.key(urls[j]) != site.key(urls[|urls| - 1]);
      }
    }
  }

  /** The pages that remain keep their order: their positions in the list strictly increase. */
  lemma {:induction false} WithoutInOrder(site: Site, urls: seq<string>, products: seq<string>) returns (at: seq<nat>)
    ensures |at| == |WithoutPagesOf(site, urls, products)|
    ensures forall i | 0 <= i < |at| :: at[i] < |urls| && WithoutPagesOf(site, urls, products)[i] == urls[at[i]]
    ensures forall i, j | 0 <= i < j < |at| :: at[i] < at[j]
  {
    at := [];
    if urls != [] {
      var n := |urls| - 1;
      at := WithoutInOrder(site, urls[..n], products);
      if !HasKey(site, products, site.key(urls[n])) { at := at + [n]; }
    }
  }

  /** The shares: products get a quarter of the slots after start, others the rest, and products what others leave. */
  function Shares(products: nat, others: nat, budget: int): (r: (nat, nat))
    ensures var rest := Max(0, budget - 1);
            && r.0 <= products && r.1 <= others && r.0 + r.1 == Min(rest, products + others)
            && r.0 >= Min(products, (rest + 3) / 4) && r.1 >= Min(others, rest - (rest + 3) / 4)
  {
    var rest := Max(0, budget - 1);
    var reserved := Min(products, (rest + 3) / 4);
    var nOthers := Min(others, rest - reserved);
    (Min(products, rest - nOthers), nOthers)
  }

  /** All but the first, if any. */
  function Rest(urls: seq<string>): seq<string> { if urls == [] then [] else urls[1..] }

  /** The first page: start's own if start parses, else the first product's, if any. */
  function First(site: Site, start: string, productUrls: seq<string>): Option<string> {
    var list := ListedAll(site, start, productUrls);
    if list == [] then None else Some(list[0])
  }

  function Products(site: Site, start: string, productUrls: seq<string>): seq<string> {
    Rest(ListedAll(site, start, productUrls))
  }

  function Others(site: Site, start: string, productUrls: seq<string>, otherUrls: seq<string>): seq<string> {
    WithoutPagesOf(site, Rest(ListedAll(site, start, otherUrls)), Products(site, start, productUrls))
  }

  /** The other pages that are not product pages, by a set of the products' keys. */
  method FilterOthers(site: Site, urls: seq<string>, products: seq<string>) returns (r: seq<string>)
    ensures r == WithoutPagesOf(site, urls, products)
  {
    var productKeys := set u | u in products :: site.key(u);
    r := [];
    for i := 0 to |urls|
      invariant r == WithoutPagesOf(site, urls[..i], products)
    {
      assert urls[..i + 1][..i] == urls[..i];
      assert site.key(urls[i]) in productKeys <==> HasKey(site, products, site.key(urls[i]));
      if site.key(urls[i]) !in productKeys { r := r + [urls[i]]; }
    }
    assert urls[..|urls|] == urls;
  }

  /** What follows the first page: the chosen products, then the chosen other pages. */
  function Chosen(site: Site, start: string, productUrls: seq<string>, otherUrls: seq<string>, budget: int): seq<string> {
    var (p, o) := (Products(site, start, productUrls), Others(site, start, productUrls, otherUrls));
    var n := Shares(|p|, |o|, budget);
    p[..n.0] + o[..n.1]
  }

  /**
   * The URLs are `first` and then `chosen`, first products and then others; None stands for the undefined first URL of an
   * empty list. A quarter of the slots, rounded up, is the products', the rest the others', and more if others leave some.
   */
  method WithProductShare(site: Site, start: string, productUrls: seq<string>, otherUrls: seq<string>, budget: int)
    returns (first: Option<string>, chosen: seq<string>, products: nat)
    ensures first == First(site, start, productUrls)
    ensures var (p, o) := (Products(site, start, productUrls), Others(site, start, productUrls, otherUrls));
            && products <= |p| && 0 <= |chosen| - products <= |o| && chosen == p[..products] + o[..|chosen| - products]
            && var slots := if budget < 1 then 0 else budget - 1;
               && |chosen| - products == Min(|o|, slots - Min(|p|, (slots + 3) / 4))
               && products == Min(|p|, slots - (|chosen| - products))
    ensures chosen == Chosen(site, start, productUrls, otherUrls, budget)
    ensures products == Shares(|Products(site, start, productUrls)|, |Others(site, start, productUrls, otherUrls)|, budget).0
  {
    var list := Collect(site, start, productUrls, None);
    var more := Collect(site, start, otherUrls, None);
    first := if list == [] then None else Some(list[0]);
    var p := Rest(list);
    var others := FilterOthers(site, Rest(more), p);
    var nOthers: nat;
    products, nOthers := Split(|p|, |others|, budget);
    chosen := p[..products] + others[..nOthers];
  }

  method Split(nProducts: nat, nOthers: nat, budget: int) returns (products: nat, others: nat)
    ensures (products, others) == Shares(nProducts, nOthers, budget)
  {
    var rest := Max(0, budget - 1);
    var reserved := Min(nProducts, (rest + 3) / 4);
    others := Min(nOthers, rest - reserved);
    products := Min(nProducts, rest - others);
  }

  /**
   * No page twice after the first one, and the whole budget used whenever there are pages to use it on. A start that
   * parses comes first and its page is not chosen again.
   */
  lemma SharedIsDistinct(site: Site, start: string, productUrls: seq<string>, otherUrls: seq<string>, budget: int)
    ensures var chosen := Chosen(site, start, productUrls, otherUrls, budget);
            && DistinctKeys(site, chosen)
            && |chosen| == Min(Max(0, budget - 1), |Products(site, start, productUrls)| + |Others(site, start, productUrls, otherUrls)|)
            && (site.parse(start).Some? ==>
                  && First(site, start, productUrls) == site.parse(start)
                  && !HasKey(site, chosen, site.key(site.parse(start).value)))
  {
    var (list, more) := (ListedAll(site, start, productUrls), ListedAll(site, start, otherUrls));
    ListedIsDistinct(site, start, productUrls, |productUrls|);
    ListedIsDistinct(site, start, otherUrls, |otherUrls|);
    var (p, o) := (Rest(list), WithoutPagesOf(site, Rest(more), Rest(list)));
    WithoutKeeps(site, Rest(more), Rest(list));
    var n := Shares(|p|, |o|, budget);
    JoinIsDistinct(site, p, o, n.0, n.1);
    if site.parse(start).Some? {
      ListedGrows(site, start, productUrls, 0, |productUrls|);
      ListedGrows(site, start, otherUrls, 0, |otherUrls|);
      FirstIsNotChosen(site, list, more, o, n.0, n.1);
    }
  }

  lemma JoinIsDistinct(site: Site, products: seq<string>, others: seq<string>, n: nat, m: nat)
    requires n <= |products| && m <= |others| && DistinctKeys(site, products) && DistinctKeys(site, others)
    requires forall i | 0 <= i < |others| :: !HasKey(site, products, site.key(others[i]))
    ensures DistinctKeys(site, products[..n] + others[..m])
  {
    forall i, j | 0 <= i < n && 0 <= j < m ensures site.key(products[i]) != site.key(others[j]) {
      assert !HasKey(site, products, site.key(others[j]));
    }
  }

  lemma FirstIsNotChosen(site: Site, list: seq<string>, more: seq<string>, others: seq<string>, n: nat, m: nat)
    requires list != [] && more != [] && list[0] == more[0] && n < |list| && m <= |others|
    requires DistinctKeys(site, list) && DistinctKeys(site, more)
    requires forall i | 0 <= i < |others| :: others[i] in more[1..]
    ensures !HasKey(site, list[1..][..n] + others[..m], site.key(list[0]))
  {
    forall i | 0 <= i < n ensures site.key(list[1..][i]) != site.key(list[0]) {
      assert list[1..][i] == list[i + 1];
    }
    forall j | 0 <= j < m ensures site.key(others[j]) != site.key(list[0]) {
      assert others[j] in more[1..];
      var k :| 0 <= k < |more| - 1 && more[1..][k] == others[j];
      assert site.key(more[0]) != site.key(more[k + 1]);
    }
  }
}
