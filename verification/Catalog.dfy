/** Product discovery: catalog pages fetched a few at a time, against reading them one by one. */
module Catalog {
  import opened Common

  const PARALLEL_PAGES := 4

  /** What fetching and parsing a page gives: its URLs, or None for a failure or a body that is no catalog. */
  type Pages<!Url> = nat -> Option<seq<Url>>

  // ------------------------------------------------------------------ an insertion-ordered set

  function Add<Url(==)>(urls: seq<Url>, u: Url): seq<Url> { if u in urls then urls else urls + [u] }

  function AddAll<Url(==)>(urls: seq<Url>, items: seq<Url>): seq<Url>
    decreases |items|
  {
    if items == [] then urls else AddAll(Add(urls, items[0]), items[1..])
  }

  lemma {:induction false} AddAllExtends<Url>(urls: seq<Url>, items: seq<Url>)
    ensures urls <= AddAll(urls, items)
    ensures Distinct(urls) ==> Distinct(AddAll(urls, items))
    ensures forall u :: u in AddAll(urls, items) <==> u in urls || u in items
    decreases |items|
  {
    if items != [] { AddAllExtends(Add(urls, items[0]), items[1..]); }
  }

  lemma {:induction false} AddAllSnoc<Url>(urls: seq<Url>, items: seq<Url>, k: nat)
    requires k < |items|
    ensures AddAll(urls, items[..k + 1]) == Add(AddAll(urls, items[..k]), items[k])
    decreases |items|
  {
    if k > 0 {
      AddAllSnoc(Add(urls, items[0]), items[1..], k - 1);
      assert items[..k + 1][1..] == items[1..][..k] && items[..k][1..] == items[1..][..k - 1];
    } else {
      assert items[..1][1..] == [] && items[..0] == [];
    }
  }

  // ------------------------------------------------------------------ the catalog itself

  /** Pages 1 to n include one that ends the catalog: missing, empty or short. */
  predicate Ended<Url>(fetch: Pages<Url>, size: nat, n: nat) {
    n > 0 && (Ended(fetch, size, n - 1) || fetch(n).None? || fetch(n).value == [] || |fetch(n).value| < size)
  }

  /** The distinct URLs of pages 1 to n, in order of appearance, up to where the catalog ends. */
  function Seen<Url(==)>(fetch: Pages<Url>, size: nat, n: nat): seq<Url> {
    if n == 0 then []
    else
      var before := Seen(fetch, size, n - 1);
      if Ended(fetch, size, n - 1) || fetch(n).None? then before else AddAll(before, fetch(n).value)
  }

  /** Reading one page at a time, at most `budget` of them, until the catalog ends or max URLs are known. */
  function OneByOne<Url(==)>(fetch: Pages<Url>, size: nat, max: nat, page: nat, urls: seq<Url>, budget: nat): seq<Url>
    decreases budget
  {
    if |urls| >= max || budget == 0 then Take(urls, max)
    else match fetch(page)
      case None => urls
      case Some(items) =>
        var more := AddAll(urls, items);
        if items == [] || |items| < size then Take(more, max) else OneByOne(fetch, size, max, page + 1, more, budget - 1)
  }

  lemma {:induction false} SeenGrows<Url>(fetch: Pages<Url>, size: nat, n: nat, m: nat)
    requires n <= m
    ensures Seen(fetch, size, n) <= Seen(fetch, size, m)
    ensures Ended(fetch, size, n) ==> Seen(fetch, size, m) == Seen(fetch, size, n) && Ended(fetch, size, m)
    decreases m
  {
    if n < m {
      SeenGrows(fetch, size, n, m - 1);
      if fetch(m).Some? { AddAllExtends(Seen(fetch, size, m - 1), fetch(m).value); }
    }
  }

  lemma {:induction false} SeenIsDistinct<Url>(fetch: Pages<Url>, size: nat, n: nat)
    ensures Distinct(Seen(fetch, size, n))
  {
    if n > 0 {
      SeenIsDistinct(fetch, size, n - 1);
      if fetch(n).Some? { AddAllExtends(Seen(fetch, size, n - 1), fetch(n).value); }
    }
  }

  /** Enough is known after n pages: the catalog has ended or max URLs are there. */
  predicate Done<Url(==)>(fetch: Pages<Url>, size: nat, max: nat, n: nat) {
    Ended(fetch, size, n) || |Seen(fetch, size, n)| >= max
  }

  /** Reading on past that point changes nothing. */
  lemma DoneIsFinal<Url>(fetch: Pages<Url>, size: nat, max: nat, n: nat, m: nat)
    requires n <= m
    ensures Take(Seen(fetch, size, n), max) <= Take(Seen(fetch, size, m), max)
    ensures Done(fetch, size, max, n) ==> Take(Seen(fetch, size, m), max) == Take(Seen(fetch, size, n), max)
  {
    SeenGrows(fetch, size, n, m);
  }

  lemma {:induction false} OneByOneFrom<Url>(fetch: Pages<Url>, size: nat, max: nat, n: nat, budget: nat)
    requires !Ended(fetch, size, n)
    ensures OneByOne(fetch, size, max, n + 1, Seen(fetch, size, n), budget) == Take(Seen(fetch, size, n + budget), max)
    decreases budget
  {
    var urls := Seen(fetch, size, n);
    if |urls| >= max {
      DoneIsFinal(fetch, size, max, n, n + budget);
    } else if budget > 0 {
      if Ended(fetch, size, n + 1) {
        DoneIsFinal(fetch, size, max, n + 1, n + budget);
      } else {
        OneByOneFrom(fetch, size, max, n + 1, budget - 1);
      }
    }
  }

  /** Reading page by page gives the catalog's distinct URLs, cut at max. */
  lemma OneByOneIsCatalog<Url>(fetch: Pages<Url>, size: nat, max: nat, budget: nat)
    ensures OneByOne(fetch, size, max, 1, [], budget) == Take(Seen(fetch, size, budget), max)
  {
    OneByOneFrom(fetch, size, max, 0, budget);
  }

  // ------------------------------------------------------------------ discoverProducts

  /** Math.ceil(a / b). */
  function CeilDiv(a: nat, b: nat): nat
    requires b > 0
  {
    (a + b - 1) / b
  }

  /** Adds a page's URLs one by one. */
  method AddItems<Url(==)>(urls: seq<Url>, items: seq<Url>) returns (r: seq<Url>)
    ensures r == AddAll(urls, items)
  {
    r := urls;
    for k := 0 to |items|
      invariant r == AddAll(urls, items[..k])
    {
      AddAllSnoc(urls, items, k);
      r := Add(r, items[k]);
    }
    assert items[..|items|] == items;
  }

  function Sum(counts: seq<nat>): nat { if counts == [] then 0 else Sum(counts[..|counts| - 1]) + counts[|counts| - 1] }

  /** The URLs that so many full pages hold. */
  function Capacity(pages: nat, size: nat): nat { if pages == 0 then 0 else size + Capacity(pages - 1, size) }

  lemma {:induction false} CapacityIs(pages: nat, size: nat)
    ensures Capacity(pages, size) == pages * size
  {
    if pages > 0 { CapacityIs(pages - 1, size); }
  }

  /** A round asks for as many pages as could hold the URLs still missing, one at least and four at most. */
  predicate AsksEnough(want: nat, missing: int, size: nat) {
    1 <= want <= 4 && (want < 4 ==> Capacity(want, size) >= missing) && Capacity(want - 1, size) < missing
  }

  /** What the rounds asked for, each given what the rounds before it had found. */
  ghost predicate Rounds<Url>(fetch: Pages<Url>, size: nat, max: nat, wants: seq<nat>) {
    forall j | 0 <= j < |wants| :: AsksEnough(wants[j], max - |Seen(fetch, size, Sum(wants[..j]))|, size)
  }

  lemma RoundsNext<Url>(fetch: Pages<Url>, size: nat, max: nat, wants: seq<nat>, want: nat)
    requires Rounds(fetch, size, max, wants) && AsksEnough(want, max - |Seen(fetch, size, Sum(wants))|, size)
    ensures Rounds(fetch, size, max, wants + [want]) && Sum(wants + [want]) == Sum(wants) + want
  {
    var all := wants + [want];
    assert all[..|wants|] == wants;
    forall j | 0 <= j < |all| ensures AsksEnough(all[j], max - |Seen(fetch, size, Sum(all[..j]))|, size) {
      if j < |wants| { assert all[..j] == wants[..j]; }
    }
  }

  lemma CeilIsEnough(a: nat, b: nat, q: nat)
    requires a > 0 && b > 0 && q == CeilDiv(a, b)
    ensures q >= 1 && q * b >= a && (q - 1) * b < a
  {
    DivIs(a + b - 1, b, q);
  }

  lemma DivIs(x: nat, b: nat, q: nat)
    requires b > 0 && q == x / b
    ensures q * b <= x < q * b + b
  {
  }

  lemma WantIsEnough(missing: nat, size: nat, want: nat)
    requires missing > 0 && size > 0 && want == Min(PARALLEL_PAGES, CeilDiv(missing, size))
    ensures AsksEnough(want, missing, size)
  {
    var q := CeilDiv(missing, size);
    CeilIsEnough(missing, size, q);
    if q > 4 { Fewer(want - 1, q - 1, size); }
    CapacityIs(want, size);
    CapacityIs(want - 1, size);
  }

  /** The pages asked for so far and the rounds they took. */
  ghost predicate Looked<Url>(fetch: Pages<Url>, size: nat, max: nat, wants: seq<nat>, n: nat, rounds: nat) {
    n == Sum(wants) && |wants| == rounds && Rounds(fetch, size, max, wants)
  }

  lemma LookedNext<Url>(fetch: Pages<Url>, size: nat, max: nat, wants: seq<nat>, n: nat, rounds: nat, missing: nat, want: nat)
    requires Looked(fetch, size, max, wants, n, rounds) && missing == max - |Seen(fetch, size, n)| && AsksEnough(want, missing, size)
    ensures Looked(fetch, size, max, wants + [want], n + want, rounds + 1)
  {
    RoundsNext(fetch, size, max, wants, want);
  }

  method PagesWanted(missing: nat, size: nat) returns (want: nat)
    requires missing > 0 && size > 0
    ensures AsksEnough(want, missing, size)
  {
    want := Min(PARALLEL_PAGES, CeilDiv(missing, size));
    WantIsEnough(missing, size, want);
  }

  lemma Fewer(a: nat, b: nat, size: nat)
    requires a <= b
    ensures a * size <= b * size
  {
  }

  /** One round: `want` pages fetched together and taken in order until one ends the catalog. */
  method TakeRound<Url(==)>(fetch: Pages<Url>, size: nat, page: nat, want: nat, urls: seq<Url>) returns (r: seq<Url>, exhausted: bool, ghost n: nat)
    requires page > 0 && !Ended(fetch, size, page - 1) && urls == Seen(fetch, size, page - 1)
    ensures n == page - 1 + want && r == Seen(fetch, size, n)
    ensures exhausted <==> Ended(fetch, size, n)
  {
    n := page - 1 + want;
    var pages := seq(want, i requires 0 <= i < want => fetch(page + i));
    r, exhausted := urls, false;
    var i := 0;
    while i < want
      invariant i <= want && !exhausted && !Ended(fetch, size, page - 1 + i) && r == Seen(fetch, size, page - 1 + i)
    {
      var items := pages[i];
      SeenGrows(fetch, size, page + i, n);
      if items.None? || items.value == [] {
        exhausted := true;
        return;
      }
      r := AddItems(r, items.value);
      if |items.value| < size {
        exhausted := true;
        return;
      }
      i := i + 1;
    }
  }

  /** The loop: rounds while more URLs are wanted, the catalog has not ended and the deadline is ahead. */
  method ReadRounds<Url(==)>(fetch: Pages<Url>, size: nat, max: nat, rounds: nat) returns (urls: seq<Url>, ghost n: nat, ghost wants: seq<nat>)
    requires size > 0
    ensures urls == Seen(fetch, size, n) && n <= 4 * rounds && (Done(fetch, size, max, n) || n >= rounds)
    ensures |wants| <= rounds && Looked(fetch, size, max, wants, n, |wants|)
  {
    var page, left := 1, rounds;
    urls, n, wants := [], 0, [];
    while |urls| < max && left > 0
      invariant page == n + 1 && urls == Seen(fetch, size, n) && !Ended(fetch, size, n)
      invariant Looked(fetch, size, max, wants, n, rounds - left)
      invariant 0 <= left <= rounds && rounds - left <= n <= 4 * (rounds - left)
      decreases left
    {
      var missing := max - |urls|;
      var want := PagesWanted(missing, size);
      LookedNext(fetch, size, max, wants, n, rounds - left, missing, want);
      wants, left := wants + [want], left - 1;
      var exhausted;
      urls, exhausted, n := TakeRound(fetch, size, page, want, urls);
      page := page + want;
      if exhausted { return; }
    }
  }

  /**
   * rounds is how many times the deadline is still ahead when the loop looks at the clock. The ghost result n
   * counts the pages taken into account, and wants the pages asked for in each round.
   */
  method DiscoverProducts<Url(==)>(fetch: Pages<Url>, size: nat, max: nat, rounds: nat) returns (r: seq<Url>, ghost n: nat, ghost wants: seq<nat>)
    requires size > 0
    ensures r == Take(Seen(fetch, size, n), max)
    ensures n <= 4 * rounds && |wants| <= rounds && Looked(fetch, size, max, wants, n, |wants|)
    ensures Done(fetch, size, max, n) || n >= rounds
    ensures OneByOne(fetch, size, max, 1, [], rounds) <= r <= OneByOne(fetch, size, max, 1, [], 4 * rounds)
    ensures Done(fetch, size, max, n) ==> forall budget: nat | n <= budget :: r == OneByOne(fetch, size, max, 1, [], budget)
    ensures Distinct(r) && |r| <= max
  {
    var urls;
    urls, n, wants := ReadRounds(fetch, size, max, rounds);
    r := Take(urls, max);
    Between(fetch, size, max, rounds, n);
    if Done(fetch, size, max, n) { BudgetsAgree(fetch, size, max, n); }
    SeenIsDistinct(fetch, size, n);
  }

  lemma BudgetsAgree<Url>(fetch: Pages<Url>, size: nat, max: nat, n: nat)
    requires Done(fetch, size, max, n)
    ensures forall budget: nat | n <= budget :: Take(Seen(fetch, size, n), max) == OneByOne(fetch, size, max, 1, [], budget)
  {
    forall budget: nat | n <= budget ensures Take(Seen(fetch, size, n), max) == OneByOne(fetch, size, max, 1, [], budget) {
      OneByOneIsCatalog(fetch, size, max, budget);
      DoneIsFinal(fetch, size, max, n, budget);
    }
  }

  /** n pages, or fewer if they are enough, lie between reading `rounds` pages and reading four times as many. */
  lemma Between<Url>(fetch: Pages<Url>, size: nat, max: nat, rounds: nat, n: nat)
    requires n <= PARALLEL_PAGES * rounds && (Done(fetch, size, max, n) || n >= rounds)
    ensures OneByOne(fetch, size, max, 1, [], rounds) <= Take(Seen(fetch, size, n), max)
         <= OneByOne(fetch, size, max, 1, [], PARALLEL_PAGES * rounds)
  {
    OneByOneIsCatalog(fetch, size, max, rounds);
    OneByOneIsCatalog(fetch, size, max, PARALLEL_PAGES * rounds);
    DoneIsFinal(fetch, size, max, n, PARALLEL_PAGES * rounds);
    if n >= rounds { DoneIsFinal(fetch, size, max, rounds, n); } else { DoneIsFinal(fetch, size, max, n, rounds); }
  }

  // ------------------------------------------------------------------ what it returns

  /** A fetch that fails where another succeeds only costs the tail. */
  lemma {:induction false} FailureKeepsPrefix<Url>(fetch: Pages<Url>, whole: Pages<Url>, size: nat, n: nat)
    requires forall p: nat :: fetch(p) == whole(p) || fetch(p).None?
    ensures Seen(fetch, size, n) <= Seen(whole, size, n)
    ensures !Ended(fetch, size, n) ==> Seen(fetch, size, n) == Seen(whole, size, n) && !Ended(whole, size, n)
  {
    if n > 0 {
      FailureKeepsPrefix(fetch, whole, size, n - 1);
      SeenGrows(whole, size, n - 1, n);
    }
  }

  /** So the discovered list is a prefix of the unfailing catalog's, whatever failed and whenever the deadline fell. */
  lemma CutShortIsPrefix<Url>(fetch: Pages<Url>, whole: Pages<Url>, size: nat, max: nat, n: nat, m: nat)
    requires n <= m && forall p: nat :: fetch(p) == whole(p) || fetch(p).None?
    ensures Take(Seen(fetch, size, n), max) <= Take(Seen(whole, size, m), max)
  {
    FailureKeepsPrefix(fetch, whole, size, n);
    SeenGrows(whole, size, n, m);
  }

  // ------------------------------------------------------------------ what the catalog is

  /** Every page before p is there, and full. */
  predicate Reaches<Url>(fetch: Pages<Url>, size: nat, p: nat) {
    forall q | 1 <= q < p :: fetch(q).Some? && fetch(q).value != [] && |fetch(q).value| >= size
  }

  lemma {:induction false} EndedMeans<Url>(fetch: Pages<Url>, size: nat, n: nat)
    ensures !Ended(fetch, size, n) <==> Reaches(fetch, size, n + 1)
  {
    if n > 0 { EndedMeans(fetch, size, n - 1); }
  }

  /** The pages one after the other, up to the one that ends the catalog. */
  function Joined<Url>(fetch: Pages<Url>, size: nat, n: nat): seq<Url> {
    if n == 0 then []
    else Joined(fetch, size, n - 1) + if Reaches(fetch, size, n) && fetch(n).Some? then fetch(n).value else []
  }

  lemma {:induction false} AddAllJoins<Url>(urls: seq<Url>, a: seq<Url>, b: seq<Url>)
    ensures AddAll(urls, a + b) == AddAll(AddAll(urls, a), b)
    decreases |a|
  {
    if a == [] {
      assert a + b == b;
    } else {
      AddAllJoins(Add(urls, a[0]), a[1..], b);
      assert (a + b)[0] == a[0] && (a + b)[1..] == a[1..] + b;
    }
  }

  /** What is seen is each URL of the joined pages once. */
  lemma {:induction false} SeenIsJoined<Url>(fetch: Pages<Url>, size: nat, n: nat)
    ensures Seen(fetch, size, n) == AddAll([], Joined(fetch, size, n))
  {
    if n > 0 {
      SeenIsJoined(fetch, size, n - 1);
      EndedMeans(fetch, size, n - 1);
      var before := Joined(fetch, size, n - 1);
      if Reaches(fetch, size, n) && fetch(n).Some? { AddAllJoins([], before, fetch(n).value); } else { assert before + [] == before; }
    }
  }

  /** Each URL is listed where it first appears, so the list is in order of first appearance. */
  lemma {:induction false} ListedAtFirst<Url>(items: seq<Url>, k: nat) returns (at: seq<nat>)
    requires k <= |items|
    ensures var r := AddAll([], items[..k]); |at| == |r| && forall i | 0 <= i < |at| :: at[i] < k && items[at[i]] == r[i] && r[i] !in items[..at[i]]
    ensures forall i, j | 0 <= i < j < |at| :: at[i] < at[j]
  {
    at := [];
    if k > 0 {
      at := ListedAtFirst(items, k - 1);
      AddAllSnoc([], items, k - 1);
      AddAllExtends([], items[..k - 1]);
      if items[k - 1] !in items[..k - 1] { at := at + [k - 1]; }
    }
  }
}
