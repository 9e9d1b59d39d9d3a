/** Traffic buckets: which of the configured ranges a visits number falls in. */
module Buckets {
  import opened Common

  /** max is exclusive; None is open-ended. */
  datatype Bucket = Bucket(name: string, min: int, max: Option<int>) {
    predicate Contains(visits: int) { visits >= min && (max.None? || visits < max.value) }
  }

  /** Index of the bucket bucket_for answers with: the first that contains the visits, else the last. */
  function FirstFit(bs: seq<Bucket>, visits: int, i: nat): (k: nat)
    requires i < |bs|
    ensures i <= k < |bs|
    decreases |bs| - i
  {
    if i + 1 == |bs| || bs[i].Contains(visits) then i else FirstFit(bs, visits, i + 1)
  }

  /** bucket_for, as an index: None and negative visits go to the first bucket. */
  function IndexFor(bs: seq<Bucket>, visits: Option<int>): (k: nat)
    requires bs != []
    ensures k < |bs|
  {
    if visits.None? || visits.value < 0 then 0 else FirstFit(bs, visits.value, 0)
  }

  method BucketFor(bs: seq<Bucket>, visits: Option<int>) returns (name: string)
    requires bs != []
    ensures name == bs[IndexFor(bs, visits)].name
  {
    if visits.None? || visits.value < 0 { return bs[0].name; }
    var i := 0;
    while i < |bs|
      invariant i <= |bs| && (i < |bs| ==> FirstFit(bs, visits.value, i) == FirstFit(bs, visits.value, 0))
      invariant i == |bs| ==> FirstFit(bs, visits.value, 0) == |bs| - 1
    {
      if bs[i].Contains(visits.value) { return bs[i].name; }
      i := i + 1;
    }
    return bs[|bs| - 1].name;
  }

  /** Each bucket begins where the one before ends, and the last is open. */
  ghost predicate Contiguous(bs: seq<Bucket>) {
    && bs != [] && bs[|bs| - 1].max.None?
    && forall i | 0 <= i < |bs| - 1 :: bs[i].max == Some(bs[i + 1].min) && bs[i].min < bs[i + 1].min
  }

  lemma {:induction false} EdgesAscend(bs: seq<Bucket>, i: nat, j: nat)
    requires Contiguous(bs) && i <= j < |bs|
    ensures bs[i].min <= bs[j].min
    decreases j
  {
    if i < j { EdgesAscend(bs, i, j - 1); }
  }

  lemma {:induction false} FirstFitContains(bs: seq<Bucket>, visits: int, i: nat)
    requires Contiguous(bs) && i < |bs| && bs[i].min <= visits
    ensures bs[FirstFit(bs, visits, i)].Contains(visits)
    decreases |bs| - i
  {
    if i + 1 < |bs| && !bs[i].Contains(visits) { FirstFitContains(bs, visits, i + 1); }
  }

  /** Contiguous buckets that begin at zero or below: exactly one contains the visits, and it is the answer. */
  lemma ExactlyOne(bs: seq<Bucket>, visits: nat, k: nat)
    requires Contiguous(bs) && bs[0].min <= 0 && k < |bs|
    ensures bs[k].Contains(visits) <==> k == IndexFor(bs, Some(visits))
  {
    var n := IndexFor(bs, Some(visits));
    FirstFitContains(bs, visits, 0);
    if k < n { EdgesAscend(bs, k + 1, n); }
    if n < k { EdgesAscend(bs, n + 1, k); }
  }

  /** More visits never mean a lower bucket, negative numbers included. */
  lemma IndexGrows(bs: seq<Bucket>, v: int, w: int)
    requires Contiguous(bs) && bs[0].min <= 0 && v <= w
    ensures IndexFor(bs, Some(v)) <= IndexFor(bs, Some(w))
  {
    if v >= 0 {
      var (i, j) := (IndexFor(bs, Some(v)), IndexFor(bs, Some(w)));
      FirstFitContains(bs, v, 0);
      FirstFitContains(bs, w, 0);
      if j < i { EdgesAscend(bs, j + 1, i); }
    }
  }

  lemma {:induction false} NoFit(bs: seq<Bucket>, visits: int, i: nat)
    requires i < |bs| && forall k | i <= k < |bs| :: !bs[k].Contains(visits)
    ensures FirstFit(bs, visits, i) == |bs| - 1
    decreases |bs| - i
  {
    if i + 1 < |bs| { NoFit(bs, visits, i + 1); }
  }

  /** A first edge above zero breaks that: visits below it get the last bucket. With it at most zero the order holds. */
  lemma OrderNeedsFirstEdge(bs: seq<Bucket>)
    requires Contiguous(bs) && |bs| > 1
    ensures (forall v: int, w: int | v <= w :: IndexFor(bs, Some(v)) <= IndexFor(bs, Some(w))) <==> bs[0].min <= 0
  {
    if bs[0].min <= 0 {
      forall v: int, w: int | v <= w ensures IndexFor(bs, Some(v)) <= IndexFor(bs, Some(w)) { IndexGrows(bs, v, w); }
    } else {
      forall k | 0 <= k < |bs| ensures !bs[k].Contains(0) { EdgesAscend(bs, 0, k); }
      NoFit(bs, 0, 0);
      assert bs[0].Contains(bs[0].min);
      assert IndexFor(bs, Some(0)) == |bs| - 1 > IndexFor(bs, Some(bs[0].min));
    }
  }

  // ------------------------------------------------------------------ load_buckets

  function Insert(sorted: seq<Bucket>, b: Bucket): seq<Bucket> {
    if sorted == [] || sorted[|sorted| - 1].min <= b.min then sorted + [b] else Insert(sorted[..|sorted| - 1], b) + [sorted[|sorted| - 1]]
  }

  /** The buckets by ascending minimum; equal ones keep their order. */
  function Loaded(bs: seq<Bucket>): seq<Bucket> {
    if bs == [] then [] else Insert(Loaded(bs[..|bs| - 1]), bs[|bs| - 1])
  }

  const DEFAULT_BUCKETS := [
    Bucket("<1K", 0, Some(1000)), Bucket("1K-10K", 1000, Some(10000)), Bucket("10K-100K", 10000, Some(100000)),
    Bucket("100K-1M", 100000, Some(1000000)), Bucket("1M-10M", 1000000, Some(10000000)), Bucket("10M+", 10000000, None)]

  /** Sorting leaves an ascending configuration as it is. */
  lemma {:induction false} LoadedIsSame(bs: seq<Bucket>)
    requires forall i | 0 <= i < |bs| - 1 :: bs[i].min < bs[i + 1].min
    ensures Loaded(bs) == bs
  {
    if bs != [] {
      var front := bs[..|bs| - 1];
      LoadedIsSame(front);
      assert bs == front + [bs[|front|]];
      assert |front| > 0 ==> bs[|front| - 1].min < bs[|front|].min;
    }
  }

  predicate Ascending(bs: seq<Bucket>) { forall i, j | 0 <= i < j < |bs| :: bs[i].min <= bs[j].min }

  lemma {:induction false} InsertKeeps(sorted: seq<Bucket>, b: Bucket)
    ensures multiset(Insert(sorted, b)) == multiset(sorted) + multiset{b}
  {
    if sorted != [] && sorted[|sorted| - 1].min > b.min {
      InsertKeeps(sorted[..|sorted| - 1], b);
      assert sorted == sorted[..|sorted| - 1] + [sorted[|sorted| - 1]];
    }
  }

  lemma {:induction false} InsertSorts(sorted: seq<Bucket>, b: Bucket)
    requires Ascending(sorted)
    ensures Ascending(Insert(sorted, b)) && forall x | x in Insert(sorted, b) :: x in sorted || x == b
  {
    if sorted != [] && sorted[|sorted| - 1].min > b.min {
      var front := sorted[..|sorted| - 1];
      InsertSorts(front, b);
      assert forall x | x in Insert(front, b) :: x.min <= sorted[|front|].min;
    }
  }

  /** Loading sorts the configured buckets by their minimum; none is lost. */
  lemma {:induction false} LoadedSorts(bs: seq<Bucket>)
    ensures multiset(Loaded(bs)) == multiset(bs) && Ascending(Loaded(bs))
  {
    if bs != [] {
      var front := bs[..|bs| - 1];
      LoadedSorts(front);
      InsertKeeps(Loaded(front), bs[|front|]);
      InsertSorts(Loaded(front), bs[|front|]);
      assert bs == front + [bs[|front|]];
    }
  }

  /** The default edges, by what they answer. */
  method DefaultBucket(visits: Option<int>) returns (name: string)
    ensures name == match visits
                    case None => "<1K"
                    case Some(v) =>
                      if v < 1000 then "<1K" else if v < 10000 then "1K-10K" else if v < 100000 then "10K-100K"
                      else if v < 1000000 then "100K-1M" else if v < 10000000 then "1M-10M" else "10M+"
  {
    DefaultsAreContiguous();
    LoadedIsSame(DEFAULT_BUCKETS);
    name := BucketFor(Loaded(DEFAULT_BUCKETS), visits);
    if visits.Some? && visits.value >= 0 {
      var v := visits.value;
      var k := if v < 1000 then 0 else if v < 10000 then 1 else if v < 100000 then 2 else if v < 1000000 then 3 else if v < 10000000 then 4 else 5;
      ExactlyOne(DEFAULT_BUCKETS, v, k);
    }
  }

  /** The default edges meet what the laws above ask for. */
  lemma DefaultsAreContiguous()
    ensures Contiguous(Loaded(DEFAULT_BUCKETS)) && Loaded(DEFAULT_BUCKETS)[0].min == 0
  {
    LoadedIsSame(DEFAULT_BUCKETS);
  }
}
