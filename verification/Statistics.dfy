/** Average ranks, Pearson and Spearman correlation, least squares; over exact reals. */
module Statistics {
  import opened Common

  // ------------------------------------------------------------------ ranks: what they mean

  function CountLess(values: seq<real>, v: real): nat {
    if values == [] then 0 else CountLess(values[..|values| - 1], v) + if values[|values| - 1] < v then 1 else 0
  }

  function CountEqual(values: seq<real>, v: real): nat {
    if values == [] then 0 else CountEqual(values[..|values| - 1], v) + if values[|values| - 1] == v then 1 else 0
  }

  /** The average rank of v: everything smaller, plus the middle of its ties. */
  function Rank(values: seq<real>, v: real): real {
    CountLess(values, v) as real + (CountEqual(values, v) as real + 1.0) / 2.0
  }

  function RanksOf(values: seq<real>): (r: seq<real>)
    ensures |r| == |values|
  {
    seq(|values|, i requires 0 <= i < |values| => Rank(values, values[i]))
  }

  // ------------------------------------------------------------------ sorted(range(n), key=values): a stable index sort

  ghost predicate Indices(order: seq<nat>, n: nat) {
    && |order| == n && (forall k | 0 <= k < n :: order[k] < n)
    && (forall i | 0 <= i < n :: i in order)
    && Distinct(order)
  }

  function Keys(values: seq<real>, order: seq<nat>): (keys: seq<real>)
    requires forall k | 0 <= k < |order| :: order[k] < |values|
    ensures |keys| == |order|
  {
    seq(|order|, k requires 0 <= k < |order| => values[order[k]])
  }

  ghost predicate Ascending(keys: seq<real>) { forall k, l | 0 <= k < l < |keys| :: keys[k] <= keys[l] }

  /** Inserts index i behind every key that is not larger. */
  function InsertIndex(values: seq<real>, order: seq<nat>, i: nat): (r: seq<nat>)
    requires i < |values| && forall k | 0 <= k < |order| :: order[k] < |values|
    ensures forall k | 0 <= k < |r| :: r[k] < |values|
  {
    if order == [] then [i]
    else
      var n := |order| - 1;
      if values[order[n]] <= values[i] then order + [i] else InsertIndex(values, order[..n], i) + [order[n]]
  }

  function Order(values: seq<real>, n: nat): (r: seq<nat>)
    requires n <= |values|
    ensures forall k | 0 <= k < |r| :: r[k] < |values|
  {
    if n == 0 then [] else InsertIndex(values, Order(values, n - 1), n - 1)
  }

  /** What inserting an index does to the keys. */
  function InsertKey(keys: seq<real>, v: real): (r: seq<real>) {
    if keys == [] then [v]
    else
      var n := |keys| - 1;
      if keys[n] <= v then keys + [v] else InsertKey(keys[..n], v) + [keys[n]]
  }

  lemma {:induction false} KeysOfInsert(values: seq<real>, order: seq<nat>, i: nat)
    requires i < |values| && forall k | 0 <= k < |order| :: order[k] < |values|
    ensures Keys(values, InsertIndex(values, order, i)) == InsertKey(Keys(values, order), values[i])
  {
    if order != [] {
      var n := |order| - 1;
      assert Keys(values, order)[..n] == Keys(values, order[..n]);
      if values[order[n]] > values[i] { KeysOfInsert(values, order[..n], i); }
    }
  }

  lemma CountsOfSnoc(keys: seq<real>, last: real, v: real)
    ensures CountLess(keys + [last], v) == CountLess(keys, v) + (if last < v then 1 else 0)
    ensures CountEqual(keys + [last], v) == CountEqual(keys, v) + (if last == v then 1 else 0)
  {
    assert (keys + [last])[..|keys|] == keys;
  }

  lemma {:induction false} InsertKeyCounts(keys: seq<real>, k: real, v: real)
    ensures CountLess(InsertKey(keys, k), v) == CountLess(keys, v) + (if k < v then 1 else 0)
    ensures CountEqual(InsertKey(keys, k), v) == CountEqual(keys, v) + (if k == v then 1 else 0)
  {
    if keys == [] {
      CountsOfSnoc([], k, v);
      assert [] + [k] == [k];
    } else {
      var n := |keys| - 1;
      if keys[n] <= k {
        CountsOfSnoc(keys, k, v);
      } else {
        InsertKeyCounts(keys[..n], k, v);
        CountsOfSnoc(InsertKey(keys[..n], k), keys[n], v);
      }
    }
  }

  lemma {:induction false} InsertIndexMembers(values: seq<real>, order: seq<nat>, i: nat)
    requires i < |values| && forall k | 0 <= k < |order| :: order[k] < |values|
    ensures |InsertIndex(values, order, i)| == |order| + 1
    ensures forall x :: x in InsertIndex(values, order, i) <==> x in order || x == i
  {
    if order != [] {
      var n := |order| - 1;
      assert order == order[..n] + [order[n]];
      if values[order[n]] > values[i] { InsertIndexMembers(values, order[..n], i); }
    }
  }

  lemma {:induction false} InsertIndexSorts(values: seq<real>, order: seq<nat>, i: nat)
    requires i < |values| && (forall k | 0 <= k < |order| :: order[k] < |values|) && Ascending(Keys(values, order))
    ensures Ascending(Keys(values, InsertIndex(values, order, i)))
  {
    if order != [] {
      var n := |order| - 1;
      var (keys, r) := (Keys(values, order), InsertIndex(values, order, i));
      if values[order[n]] > values[i] {
        var s := InsertIndex(values, order[..n], i);
        assert Keys(values, order[..n]) == keys[..n];
        InsertIndexSorts(values, order[..n], i);
        InsertIndexMembers(values, order[..n], i);
        forall k | 0 <= k < |s| ensures values[s[k]] <= values[order[n]] {
          assert s[k] in s;
          if s[k] != i { var l :| 0 <= l < n && order[l] == s[k]; assert keys[l] <= keys[n]; }
        }
        Extends(Keys(values, s), values[order[n]]);
        assert Keys(values, r) == Keys(values, s) + [values[order[n]]];
      } else {
        assert forall k | 0 <= k < n :: keys[k] <= keys[n];
        Extends(keys, values[i]);
        assert Keys(values, r) == keys + [values[i]];
      }
    }
  }

  lemma Extends(keys: seq<real>, v: real)
    requires Ascending(keys) && forall k | 0 <= k < |keys| :: keys[k] <= v
    ensures Ascending(keys + [v])
  {
  }

  lemma {:induction false} InsertIndexDistinct(values: seq<real>, order: seq<nat>, i: nat)
    requires i < |values| && (forall k | 0 <= k < |order| :: order[k] < |values| && order[k] != i) && Distinct(order)
    ensures Distinct(InsertIndex(values, order, i))
  {
    if order != [] {
      var n := |order| - 1;
      if values[order[n]] > values[i] {
        InsertIndexDistinct(values, order[..n], i);
        InsertIndexMembers(values, order[..n], i);
        var s := InsertIndex(values, order[..n], i);
        assert InsertIndex(values, order, i) == s + [order[n]];
        forall k | 0 <= k < |s| ensures s[k] != order[n] {
          assert s[k] in s;
        }
      } else {
        assert InsertIndex(values, order, i) == order + [i];
      }
    }
  }

  /** The order lists every index below n exactly once, in ascending order of their values. */
  lemma {:induction false} OrderIsPermutation(values: seq<real>, n: nat)
    requires n <= |values|
    ensures Indices(Order(values, n), n)
  {
    if n > 0 {
      var before := Order(values, n - 1);
      OrderIsPermutation(values, n - 1);
      InsertIndexMembers(values, before, n - 1);
      InsertIndexDistinct(values, before, n - 1);
      WithNext(before, Order(values, n), n);
    }
  }

  lemma WithNext(before: seq<nat>, r: seq<nat>, n: nat)
    requires n > 0 && Indices(before, n - 1) && |r| == n && Distinct(r)
    requires forall x :: x in r <==> x in before || x == n - 1
    ensures Indices(r, n)
  {
    forall k | 0 <= k < n ensures r[k] < n { assert r[k] in r; }
    forall i: nat | i < n ensures i in r { assert i < n - 1 ==> i in before; }
  }

  lemma {:induction false} OrderSorts(values: seq<real>, n: nat)
    requires n <= |values|
    ensures Ascending(Keys(values, Order(values, n)))
  {
    if n > 0 {
      OrderSorts(values, n - 1);
      InsertIndexSorts(values, Order(values, n - 1), n - 1);
    }
  }

  lemma {:induction false} OrderCounts(values: seq<real>, n: nat, v: real)
    requires n <= |values|
    ensures CountLess(Keys(values, Order(values, n)), v) == CountLess(values[..n], v)
    ensures CountEqual(Keys(values, Order(values, n)), v) == CountEqual(values[..n], v)
  {
    if n > 0 {
      OrderCounts(values, n - 1, v);
      OrderNext(values, n, v);
      CountsNext(values, n, v);
    }
  }

  lemma OrderNext(values: seq<real>, n: nat, v: real)
    requires 0 < n <= |values|
    ensures var (keys, after) := (Keys(values, Order(values, n - 1)), Keys(values, Order(values, n)));
            && CountLess(after, v) == CountLess(keys, v) + (if values[n - 1] < v then 1 else 0)
            && CountEqual(after, v) == CountEqual(keys, v) + (if values[n - 1] == v then 1 else 0)
  {
    KeysOfInsert(values, Order(values, n - 1), n - 1);
    InsertKeyCounts(Keys(values, Order(values, n - 1)), values[n - 1], v);
  }

  lemma CountsNext(values: seq<real>, n: nat, v: real)
    requires 0 < n <= |values|
    ensures CountLess(values[..n], v) == CountLess(values[..n - 1], v) + (if values[n - 1] < v then 1 else 0)
    ensures CountEqual(values[..n], v) == CountEqual(values[..n - 1], v) + (if values[n - 1] == v then 1 else 0)
  {
    CountsOfSnoc(values[..n - 1], values[n - 1], v);
    assert values[..n] == values[..n - 1] + [values[n - 1]];
  }

  /** A block i..j of equal sorted keys: i are smaller, j - i + 1 equal. */
  lemma {:induction false} BlockCounts(keys: seq<real>, i: nat, j: nat, v: real)
    requires i <= j <= |keys|
    requires forall k | 0 <= k < |keys| :: (k < i ==> keys[k] < v) && (i <= k < j ==> keys[k] == v) && (k >= j ==> keys[k] > v)
    ensures CountLess(keys, v) == i && CountEqual(keys, v) == j - i
  {
    if keys != [] {
      var n := |keys| - 1;
      BlockCounts(keys[..n], Min(i, n), Min(j, n), v);
    }
  }

  /** Keys i up to (not including) j are one value's block in ascending keys. */
  ghost predicate IsBlock(keys: seq<real>, i: nat, j: nat) {
    && i < j <= |keys|
    && forall k | 0 <= k < |keys| :: (k < i ==> keys[k] < keys[i]) && (i <= k < j ==> keys[k] == keys[i]) && (k >= j ==> keys[k] > keys[i])
  }

  /** The rank that the block of equal keys from i up to (not including) j shares. */
  lemma BlockRank(values: seq<real>, keys: seq<real>, i: nat, j: nat)
    requires keys == Keys(values, Order(values, |values|)) && IsBlock(keys, i, j)
    ensures Rank(values, keys[i]) == (i + j - 1) as real / 2.0 + 1.0
  {
    BlockCounts(keys, i, j, keys[i]);
    OrderCounts(values, |values|, keys[i]);
    assert values[..|values|] == values;
  }

  lemma BlockFound(keys: seq<real>, i: nat, j: nat)
    requires Ascending(keys) && i < j <= |keys|
    requires i > 0 ==> keys[i - 1] < keys[i]
    requires forall k | i <= k < j :: keys[k] == keys[i]
    requires j < |keys| ==> keys[j] != keys[i]
    ensures IsBlock(keys, i, j) && (j < |keys| ==> keys[j - 1] < keys[j])
  {
    forall k | 0 <= k < |keys| ensures (k < i ==> keys[k] < keys[i]) && (k >= j ==> keys[k] > keys[i]) {
      if k < i { assert keys[k] <= keys[i - 1]; }
      if k >= j { assert keys[i] <= keys[j] <= keys[k]; }
    }
  }

  ghost predicate RankedUpTo(values: seq<real>, order: seq<nat>, keys: seq<real>, ranks: seq<real>, n: nat) {
    && Indices(order, |ranks|) && n <= |keys| == |ranks|
    && forall k | 0 <= k < n :: ranks[order[k]] == Rank(values, keys[k])
  }

  lemma BlockRanked(values: seq<real>, order: seq<nat>, keys: seq<real>, was: seq<real>, now: seq<real>, i: nat, j: nat)
    requires order == Order(values, |values|) && keys == Keys(values, order)
    requires RankedUpTo(values, order, keys, was, i) && IsBlock(keys, i, j) && |now| == |was|
    requires forall l | 0 <= l < i :: now[order[l]] == was[order[l]]
    requires forall l | i <= l < j :: now[order[l]] == (i + j - 1) as real / 2.0 + 1.0
    ensures RankedUpTo(values, order, keys, now, j)
  {
    BlockRank(values, keys, i, j);
  }

  /** The inner scan: the last index of the block that starts at i. */
  method BlockEnd(values: seq<real>, order: seq<nat>, ghost keys: seq<real>, i: nat) returns (j: nat)
    requires (forall k | 0 <= k < |order| :: order[k] < |values|) && keys == Keys(values, order) && Ascending(keys)
    requires i < |order| && (i > 0 ==> keys[i - 1] < keys[i])
    ensures IsBlock(keys, i, j + 1) && (j + 1 < |keys| ==> keys[j] < keys[j + 1])
  {
    j := i;
    while j + 1 < |order| && values[order[j + 1]] == values[order[i]]
      invariant i <= j < |order| && forall k | i <= k <= j :: keys[k] == keys[i]
    {
      j := j + 1;
    }
    BlockFound(keys, i, j + 1);
  }

  /** for k in range(i, j): ranks[order[k]] = avg. */
  method AssignBlock(ranks: array<real>, order: seq<nat>, i: nat, j: nat, avg: real)
    requires Indices(order, ranks.Length) && i <= j <= |order|
    modifies ranks
    ensures forall k | 0 <= k < i || j <= k < |order| :: ranks[order[k]] == old(ranks[order[k]])
    ensures forall k | i <= k < j :: ranks[order[k]] == avg
  {
    for k := i to j
      invariant forall l | 0 <= l < i || j <= l < |order| :: ranks[order[l]] == old(ranks[order[l]])
      invariant forall l | i <= l < k :: ranks[order[l]] == avg
    {
      ranks[order[k]] := avg;
    }
  }

  method Ranks(values: seq<real>) returns (ranks: array<real>)
    ensures fresh(ranks) && ranks[..] == RanksOf(values)
  {
    var n := |values|;
    var order := Order(values, n);
    OrderIsPermutation(values, n);
    OrderSorts(values, n);
    ghost var keys := Keys(values, order);
    ranks := new real[n](_ => 0.0);
    var i := 0;
    while i < n
      invariant 0 <= i <= n
      invariant 0 < i < n ==> keys[i - 1] < keys[i]
      invariant RankedUpTo(values, order, keys, ranks[..], i)
    {
      var j := BlockEnd(values, order, keys, i);
      var avg := (i + j) as real / 2.0 + 1.0;
      ghost var was := ranks[..];
      AssignBlock(ranks, order, i, j + 1, avg);
      BlockRanked(values, order, keys, was, ranks[..], i, j + 1);
      i := j + 1;
    }
    RanksComplete(values, order, keys, ranks[..]);
  }

  lemma RanksComplete(values: seq<real>, order: seq<nat>, keys: seq<real>, ranks: seq<real>)
    requires |ranks| == |values| && RankedUpTo(values, order, keys, ranks, |values|)
    requires keys == Keys(values, order)
    ensures ranks == RanksOf(values)
  {
    forall x | 0 <= x < |values| ensures ranks[x] == RanksOf(values)[x] {
      assert x in order;
      var k :| 0 <= k < |values| && order[k] == x;
      assert keys[k] == values[x];
    }
  }

  // ------------------------------------------------------------------ ranks: laws

  function Sum(xs: seq<real>): real { if xs == [] then 0.0 else Sum(xs[..|xs| - 1]) + xs[|xs| - 1] }

  /** The ranks, within `values`, of the elements of `sample`, added up. */
  function RankSum(values: seq<real>, sample: seq<real>): real {
    if sample == [] then 0.0 else RankSum(values, sample[..|sample| - 1]) + Rank(values, sample[|sample| - 1])
  }

  lemma {:induction false} RankSumGrows(values: seq<real>, x: real, sample: seq<real>)
    ensures RankSum(values + [x], sample) ==
            RankSum(values, sample) + (|sample| - CountLess(sample, x) - CountEqual(sample, x)) as real + CountEqual(sample, x) as real / 2.0
  {
    if sample != [] {
      var n := |sample| - 1;
      RankSumGrows(values, x, sample[..n]);
      assert (values + [x])[..|values|] == values;
    }
  }

  /** Whatever the ties, the ranks of n values add up to n (n + 1) / 2. */
  lemma {:induction false} RanksSum(values: seq<real>)
    ensures RankSum(values, values) == (|values| * (|values| + 1)) as real / 2.0
  {
    if values != [] {
      var n := |values| - 1;
      var (front, x) := (values[..n], values[n]);
      assert values == front + [x];
      RanksSum(front);
      RankSumGrows(front, x, front);
      assert RankSum(values, values) == RankSum(values, front) + Rank(values, x);
      assert n * (n + 1) + 2 * (n + 1) == (n + 1) * (n + 2);
    }
  }

  lemma {:induction false} SumOfRanks(values: seq<real>, n: nat)
    requires n <= |values|
    ensures Sum(RanksOf(values)[..n]) == RankSum(values, values[..n])
  {
    if n > 0 {
      SumOfRanks(values, n - 1);
      assert RanksOf(values)[..n][..n - 1] == RanksOf(values)[..n - 1] && values[..n][..n - 1] == values[..n - 1];
    }
  }

  lemma RanksTotal(values: seq<real>)
    ensures Sum(RanksOf(values)) == (|values| * (|values| + 1)) as real / 2.0
  {
    SumOfRanks(values, |values|);
    RanksSum(values);
    assert RanksOf(values)[..|values|] == RanksOf(values) && values[..|values|] == values;
  }

  function Map(f: real -> real, xs: seq<real>): (ys: seq<real>)
    ensures |ys| == |xs|
  {
    seq(|xs|, i requires 0 <= i < |xs| => f(xs[i]))
  }

  ghost predicate Increasing(f: real -> real) { forall x, y | x < y :: f(x) < f(y) }

  lemma {:induction false} CountsUnderMap(f: real -> real, values: seq<real>, v: real)
    requires Increasing(f)
    ensures CountLess(Map(f, values), f(v)) == CountLess(values, v) && CountEqual(Map(f, values), f(v)) == CountEqual(values, v)
  {
    if values != [] {
      var n := |values| - 1;
      CountsUnderMap(f, values[..n], v);
      assert Map(f, values)[..n] == Map(f, values[..n]);
      var x := values[n];
      assert x < v ==> f(x) < f(v);
      assert v < x ==> f(v) < f(x);
    }
  }

  /** Ranks see only the order of the values. */
  lemma RanksInvariant(f: real -> real, values: seq<real>)
    requires Increasing(f)
    ensures RanksOf(Map(f, values)) == RanksOf(values)
  {
    forall i | 0 <= i < |values| ensures RanksOf(Map(f, values))[i] == RanksOf(values)[i] { CountsUnderMap(f, values, values[i]); }
  }

  // ------------------------------------------------------------------ correlation

  function Mean(xs: seq<real>): real
    requires xs != []
  {
    Sum(xs) / |xs| as real
  }

  function Shifted(xs: seq<real>, m: real): (ys: seq<real>)
    ensures |ys| == |xs|
  {
    seq(|xs|, i requires 0 <= i < |xs| => xs[i] - m)
  }

  /** Sum of products over the zipped lists. */
  function Dot(xs: seq<real>, ys: seq<real>): real
    requires |xs| == |ys|
  {
    if xs == [] then 0.0 else Dot(xs[..|xs| - 1], ys[..|ys| - 1]) + xs[|xs| - 1] * ys[|ys| - 1]
  }

  ghost predicate IsRoot(sqrt: real -> real) { forall v | v >= 0.0 :: sqrt(v) >= 0.0 && sqrt(v) * sqrt(v) == v }

  lemma {:induction false} DotSquareNonNegative(xs: seq<real>)
    ensures Dot(xs, xs) >= 0.0
  {
    if xs != [] { DotSquareNonNegative(xs[..|xs| - 1]); }
  }

  lemma ProductRoot(sqrt: real -> real, a: real, b: real)
    requires IsRoot(sqrt) && a > 0.0 && b > 0.0
    ensures sqrt(a * b) > 0.0 && sqrt(a * b) * sqrt(a * b) == a * b
  {
    var v := a * b;
    assert v > 0.0 && sqrt(v) * sqrt(v) == v;
  }

  function Pearson(x: seq<real>, y: seq<real>, sqrt: real -> real): Option<real>
    requires IsRoot(sqrt)
  {
    if |x| < 3 || |x| != |y| then None
    else
      var (cx, cy) := (Shifted(x, Mean(x)), Shifted(y, Mean(y)));
      DotSquareNonNegative(cx);
      DotSquareNonNegative(cy);
      Correlation(Dot(cx, cx), Dot(cy, cy), Dot(cx, cy), sqrt)
  }

  /** The quotient pearson returns, from the centred sums. */
  function Correlation(sxx: real, syy: real, sxy: real, sqrt: real -> real): Option<real>
    requires sxx >= 0.0 && syy >= 0.0 && IsRoot(sqrt)
  {
    if sxx == 0.0 || syy == 0.0 then None
    else
      ProductRoot(sqrt, sxx, syy);
      Some(sxy / sqrt(sxx * syy))
  }

  function Spearman(x: seq<real>, y: seq<real>, sqrt: real -> real): Option<real>
    requires IsRoot(sqrt)
  {
    if |x| < 3 || |x| != |y| then None else Pearson(RanksOf(x), RanksOf(y), sqrt)
  }

  lemma SquareStep(a: real, b: real, c: real, x: real, y: real)
    requires a >= 0.0 && b >= 0.0 && c * c <= a * b
    ensures a * (y * y) + b * (x * x) >= 2.0 * (c * (x * y))
  {
    if a == 0.0 {
      if c != 0.0 { SquarePositive(c); }
      assert b * (x * x) >= 0.0;
    } else {
      SquareStepPositive(a, b, c, x, y);
    }
  }

  lemma Positive(p: real, q: real)
    requires p > 0.0 && q > 0.0
    ensures p * q > 0.0
  {
  }

  lemma SquarePositive(c: real)
    requires c != 0.0
    ensures c * c > 0.0
  {
    if c > 0.0 {
      Positive(c, c);
    } else {
      Positive(-c, -c);
      assert (-c) * (-c) == c * c;
    }
  }

  lemma SquareStepPositive(a: real, b: real, c: real, x: real, y: real)
    requires a > 0.0 && c * c <= a * b
    ensures a * (y * y) + b * (x * x) >= 2.0 * (c * (x * y))
  {
    var d := a * (y * y) + b * (x * x) - 2.0 * (c * (x * y));
    var (p, q) := (a * y - c * x, a * b - c * c);
    CompleteSquare(a, b, c, x, y);
    assert p * p >= 0.0 && q * (x * x) >= 0.0;
    Sign(a, d);
  }

  lemma CompleteSquare(a: real, b: real, c: real, x: real, y: real)
    ensures a * (a * (y * y) + b * (x * x) - 2.0 * (c * (x * y))) == (a * y - c * x) * (a * y - c * x) + (a * b - c * c) * (x * x)
  {
    assert (a * y - c * x) * (a * y - c * x) == a * (a * (y * y)) - 2.0 * (a * (c * (x * y))) + (c * c) * (x * x);
    assert (a * b - c * c) * (x * x) == a * (b * (x * x)) - (c * c) * (x * x);
  }

  lemma Sign(a: real, d: real)
    requires a > 0.0
    ensures a * d >= 0.0 ==> d >= 0.0
  {
  }

  lemma ExpandSquares(a: real, b: real, c: real, x: real, y: real)
    requires c * c <= a * b && a * (y * y) + b * (x * x) >= 2.0 * (c * (x * y))
    ensures (c + x * y) * (c + x * y) <= (a + x * x) * (b + y * y)
  {
    assert (c + x * y) * (c + x * y) == c * c + 2.0 * (c * (x * y)) + (x * y) * (x * y);
    assert (a + x * x) * (b + y * y) == a * b + a * (y * y) + b * (x * x) + (x * x) * (y * y);
    assert (x * y) * (x * y) == (x * x) * (y * y);
  }

  /** Cauchy-Schwarz. */
  lemma {:induction false} CauchySchwarz(xs: seq<real>, ys: seq<real>)
    requires |xs| == |ys|
    ensures Dot(xs, ys) * Dot(xs, ys) <= Dot(xs, xs) * Dot(ys, ys)
  {
    if xs != [] {
      var n := |xs| - 1;
      var (u, v, x, y) := (xs[..n], ys[..n], xs[n], ys[n]);
      CauchySchwarz(u, v);
      DotSquareNonNegative(u);
      DotSquareNonNegative(v);
      SquareStep(Dot(u, u), Dot(v, v), Dot(u, v), x, y);
      ExpandSquares(Dot(u, u), Dot(v, v), Dot(u, v), x, y);
    }
  }

  lemma SquareBound(s: real, d: real)
    requires d > 0.0 && s * s <= d * d
    ensures -d <= s <= d
  {
    SquareGrows(s, d);
    SquareGrows(-s, d);
  }

  lemma SquareGrows(s: real, d: real)
    requires d > 0.0
    ensures s > d ==> s * s > d * d
  {
    if s > d { assert s * s > s * d && s * d > d * d; }
  }

  lemma QuotientInRange(s: real, d: real)
    requires d > 0.0 && -d <= s <= d
    ensures -1.0 <= s / d <= 1.0
  {
  }

  lemma RatioInRange(s: real, p: real, d: real)
    requires d > 0.0 && d * d == p && s * s <= p
    ensures -1.0 <= s / d <= 1.0
  {
    SquareBound(s, d);
    QuotientInRange(s, d);
  }

  lemma QuotientIsSmall(sxx: real, syy: real, sxy: real, sqrt: real -> real)
    requires sxx >= 0.0 && syy >= 0.0 && IsRoot(sqrt) && sxy * sxy <= sxx * syy
    ensures var q := Correlation(sxx, syy, sxy, sqrt); q.Some? ==> -1.0 <= q.value <= 1.0
  {
    if sxx != 0.0 && syy != 0.0 {
      ProductRoot(sqrt, sxx, syy);
      RatioInRange(sxy, sxx * syy, sqrt(sxx * syy));
    }
  }

  /** |r| <= 1 for lists of any length. */
  lemma PearsonInRange(x: seq<real>, y: seq<real>, sqrt: real -> real)
    requires IsRoot(sqrt) && Pearson(x, y, sqrt).Some?
    ensures -1.0 <= Pearson(x, y, sqrt).value <= 1.0
  {
    var (cx, cy) := (Shifted(x, Mean(x)), Shifted(y, Mean(y)));
    CauchySchwarz(cx, cy);
    DotSquareNonNegative(cx);
    DotSquareNonNegative(cy);
    QuotientIsSmall(Dot(cx, cx), Dot(cy, cy), Dot(cx, cy), sqrt);
  }

  // ------------------------------------------------------------------ a straight line

  function Straight(a: real, b: real, x: real): real { a + b * x }

  function Scaled(xs: seq<real>, a: real, b: real): (ys: seq<real>)
    ensures |ys| == |xs|
  {
    seq(|xs|, i requires 0 <= i < |xs| => Straight(a, b, xs[i]))
  }

  lemma ScaledFront(xs: seq<real>, a: real, b: real)
    requires xs != []
    ensures Scaled(xs, a, b)[..|xs| - 1] == Scaled(xs[..|xs| - 1], a, b)
  {
    var n := |xs| - 1;
    forall i | 0 <= i < n ensures Scaled(xs, a, b)[..n][i] == Scaled(xs[..n], a, b)[i] { assert xs[..n][i] == xs[i]; }
  }

  lemma SumTerm(n: real, a: real, b: real, t: real, x: real)
    ensures n * a + b * t + Straight(a, b, x) == (n + 1.0) * a + b * (t + x)
  {
    assert (n + 1.0) * a == n * a + a;
    assert b * (t + x) == b * t + b * x;
  }

  lemma {:induction false} SumScaled(xs: seq<real>, a: real, b: real)
    ensures Sum(Scaled(xs, a, b)) == |xs| as real * a + b * Sum(xs)
  {
    if xs != [] {
      var n := |xs| - 1;
      SumScaled(xs[..n], a, b);
      ScaledFront(xs, a, b);
      SumTerm(n as real, a, b, Sum(xs[..n]), xs[n]);
    }
  }

  lemma MeanTerm(n: real, a: real, b: real, t: real)
    requires n > 0.0
    ensures (n * a + b * t) / n == Straight(a, b, t / n)
  {
    var m := t / n;
    assert m * n == t;
    assert (a + b * m) * n == n * a + b * (m * n);
  }

  lemma MeanScaled(xs: seq<real>, a: real, b: real)
    requires xs != []
    ensures Mean(Scaled(xs, a, b)) == Straight(a, b, Mean(xs))
  {
    SumScaled(xs, a, b);
    MeanTerm(|xs| as real, a, b, Sum(xs));
  }

  lemma ShiftTerm(a: real, b: real, x: real, m: real)
    ensures Straight(a, b, x) - Straight(a, b, m) == Straight(0.0, b, x - m)
  {
    assert b * (x - m) == b * x - b * m;
  }

  lemma CentredScaled(xs: seq<real>, a: real, b: real, m: real)
    ensures Shifted(Scaled(xs, a, b), Straight(a, b, m)) == Scaled(Shifted(xs, m), 0.0, b)
  {
    forall i | 0 <= i < |xs| ensures Straight(a, b, xs[i]) - Straight(a, b, m) == Straight(0.0, b, xs[i] - m) { ShiftTerm(a, b, xs[i], m); }
  }

  lemma DotTerm(d: real, x: real, b: real)
    ensures b * d + x * Straight(0.0, b, x) == b * (d + x * x)
    ensures b * b * d + Straight(0.0, b, x) * Straight(0.0, b, x) == b * b * (d + x * x)
  {
    var y := b * x;
    assert Straight(0.0, b, x) == y;
    assert x * y == b * (x * x) && y * y == b * b * (x * x);
    assert b * (d + x * x) == b * d + b * (x * x);
    assert b * b * (d + x * x) == b * b * d + b * b * (x * x);
  }

  lemma {:induction false} DotScaled(xs: seq<real>, b: real)
    ensures Dot(xs, Scaled(xs, 0.0, b)) == b * Dot(xs, xs)
    ensures Dot(Scaled(xs, 0.0, b), Scaled(xs, 0.0, b)) == b * b * Dot(xs, xs)
  {
    if xs != [] {
      var n := |xs| - 1;
      DotScaled(xs[..n], b);
      ScaledFront(xs, 0.0, b);
      DotTerm(Dot(xs[..n], xs[..n]), xs[n], b);
    }
  }

  lemma PositiveIs(p: real, q: real, r: real)
    requires p > 0.0 && q > 0.0 && r == p * q
    ensures r > 0.0
  {
  }

  lemma SquareIs(c: real, d: real)
    requires c != 0.0 && d == c * c
    ensures d > 0.0
  {
    var e := if c > 0.0 then c else -c;
    PositiveIs(e, e, d);
  }

  lemma RootIs(r: real, d: real)
    requires r >= 0.0 && d > 0.0 && r * r == d * d
    ensures r == d
  {
    var z := (d - r) * (d + r);
    assert z == d * d - r * r;
    if r < d {
      PositiveIs(d - r, d + r, z);
    } else if r > d {
      PositiveIs(r - d, d + r, -z);
    }
  }

  lemma SquareRoot(sqrt: real -> real, d: real, v: real)
    requires IsRoot(sqrt) && d > 0.0 && v == d * d
    ensures sqrt(v) == d
  {
    SquareIs(d, v);
    RootIs(sqrt(v), d);
  }

  /** The quotient of a list's sum of squares s and those of its multiple is the sign of the factor. */
  lemma QuotientOfMultiple(s: real, b: real, t: real, c: real, sqrt: real -> real)
    requires IsRoot(sqrt) && s > 0.0 && b != 0.0 && c == b * s && t == b * b * s
    ensures t > 0.0 && Correlation(s, t, c, sqrt) == Some(if b > 0.0 then 1.0 else -1.0)
  {
    var e := if b > 0.0 then b else -b;
    var d := e * s;
    PositiveIs(e, s, d);
    assert t == e * d;
    PositiveIs(e, d, t);
    TimesSquare(s, t, e, d);
    SquareRoot(sqrt, d, s * t);
    assert c == if b > 0.0 then d else -d;
    CorrelationIs(s, t, c, d, b > 0.0, sqrt);
  }

  lemma TimesSquare(s: real, t: real, e: real, d: real)
    requires d == e * s && t == e * d
    ensures s * t == d * d
  {
  }

  lemma CorrelationIs(s: real, t: real, c: real, d: real, rises: bool, sqrt: real -> real)
    requires IsRoot(sqrt) && s > 0.0 && t > 0.0 && d > 0.0 && sqrt(s * t) == d && c == if rises then d else -d
    ensures Correlation(s, t, c, sqrt) == Some(if rises then 1.0 else -1.0)
  {
    SignOf(c, d, rises);
  }

  lemma SignOf(c: real, d: real, rises: bool)
    requires d > 0.0 && c == if rises then d else -d
    ensures c / d == if rises then 1.0 else -1.0
  {
  }

  lemma {:induction false} DotPositive(xs: seq<real>, i: nat)
    requires i < |xs| && xs[i] != 0.0
    ensures Dot(xs, xs) > 0.0
  {
    var n := |xs| - 1;
    DotSquareNonNegative(xs[..n]);
    var d := xs[n] * xs[n];
    assert Dot(xs, xs) == Dot(xs[..n], xs[..n]) + d;
    if xs[n] != 0.0 { SquareIs(xs[n], d); }
    if i < n { DotPositive(xs[..n], i); }
  }

  /** A list and a straight function of it correlate fully: 1 if it rises, -1 if it falls. */
  lemma PearsonOfLine(x: seq<real>, a: real, b: real, sqrt: real -> real, i: nat)
    requires IsRoot(sqrt) && |x| >= 3 && b != 0.0 && i < |x| && x[i] != Mean(x)
    ensures Pearson(x, Scaled(x, a, b), sqrt) == Some(if b > 0.0 then 1.0 else -1.0)
  {
    var cx := Shifted(x, Mean(x));
    DotPositive(cx, i);
    MeanScaled(x, a, b);
    CentredScaled(x, a, b, Mean(x));
    DotScaled(cx, b);
    var cy := Scaled(cx, 0.0, b);
    QuotientOfMultiple(Dot(cx, cx), b, Dot(cy, cy), Dot(cx, cy), sqrt);
    CentredPearson(x, Scaled(x, a, b), cx, cy, sqrt);
  }

  lemma CentredPearson(x: seq<real>, y: seq<real>, cx: seq<real>, cy: seq<real>, sqrt: real -> real)
    requires IsRoot(sqrt) && |x| == |y| >= 3 && cx == Shifted(x, Mean(x)) && cy == Shifted(y, Mean(y))
    ensures Dot(cx, cx) >= 0.0 && Dot(cy, cy) >= 0.0 && Pearson(x, y, sqrt) == Correlation(Dot(cx, cx), Dot(cy, cy), Dot(cx, cy), sqrt)
  {
    DotSquareNonNegative(cx);
    DotSquareNonNegative(cy);
  }

  /** Any strictly increasing rescaling of either list leaves spearman unchanged. */
  lemma SpearmanInvariant(f: real -> real, g: real -> real, x: seq<real>, y: seq<real>, sqrt: real -> real)
    requires IsRoot(sqrt) && Increasing(f) && Increasing(g)
    ensures Spearman(Map(f, x), Map(g, y), sqrt) == Spearman(x, y, sqrt)
  {
    RanksInvariant(f, x);
    RanksInvariant(g, y);
  }

  // ------------------------------------------------------------------ least squares

  datatype Fit = NoFit | Raised | Line(a: real, b: real)

  /** ols; zip(strict=True) and the mean of an empty list raise. */
  function Ols(x: seq<real>, y: seq<real>): Fit {
    if |x| < 3 then NoFit
    else if y == [] then Raised
    else
      var cx := Shifted(x, Mean(x));
      var sxx := Dot(cx, cx);
      if sxx == 0.0 then NoFit
      else if |x| != |y| then Raised
      else
        var b := Dot(cx, Shifted(y, Mean(y))) / sxx;
        Line(Mean(y) - b * Mean(x), b)
  }

  /** Sum of squared residuals of the line a + b x. */
  function Ssr(x: seq<real>, y: seq<real>, a: real, b: real): real
    requires |x| == |y|
  {
    if x == [] then 0.0
    else
      var n := |x| - 1;
      Ssr(x[..n], y[..n], a, b) + Square(y[n] - (a + b * x[n]))
  }

  function Square(v: real): real { v * v }

  lemma SsrStep(x: seq<real>, y: seq<real>, mx: real, my: real, a: real, b: real, e: real, u: real, v: real)
    requires |x| == |y| > 0 && a == my - b * mx + e && u == x[|x| - 1] - mx && v == y[|y| - 1] - my
    ensures var n := |x| - 1; Ssr(x, y, a, b) == Ssr(x[..n], y[..n], a, b) + Square(v - b * u - e)
  {
    Residual(x[|x| - 1], y[|x| - 1], mx, my, b, e);
  }

  lemma DotStep(x: seq<real>, y: seq<real>, m: real, k: real, u: real, v: real)
    requires |x| == |y| > 0 && u == x[|x| - 1] - m && v == y[|y| - 1] - k
    ensures var n := |x| - 1; Dot(Shifted(x, m), Shifted(y, k)) == Dot(Shifted(x[..n], m), Shifted(y[..n], k)) + u * v
  {
    var n := |x| - 1;
    assert Shifted(x, m)[..n] == Shifted(x[..n], m) && Shifted(y, k)[..n] == Shifted(y[..n], k);
  }

  lemma SumStep(x: seq<real>, m: real)
    requires |x| > 0
    ensures var n := |x| - 1; Sum(Shifted(x, m)) == Sum(Shifted(x[..n], m)) + (x[n] - m)
  {
    assert Shifted(x, m)[..|x| - 1] == Shifted(x[..|x| - 1], m);
  }

  /** What the residuals of the line through (mx, my) with slope b, raised by e, add up to. */
  function Expansion(sxx: real, sxy: real, syy: real, sx: real, sy: real, n: real, b: real, e: real): real {
    syy - 2.0 * (b * sxy) + b * (b * sxx) - 2.0 * (e * sy) + 2.0 * (b * (e * sx)) + n * (e * e)
  }

  lemma ExpansionStep(sxx: real, sxy: real, syy: real, sx: real, sy: real, n: real, b: real, e: real, u: real, v: real)
    ensures Expansion(sxx + u * u, sxy + u * v, syy + v * v, sx + u, sy + v, n + 1.0, b, e)
         == Expansion(sxx, sxy, syy, sx, sy, n, b, e) + Square(v - b * u - e)
  {
    assert b * (sxy + u * v) == b * sxy + b * (u * v);
    assert b * (b * (sxx + u * u)) == b * (b * sxx) + b * (b * (u * u)) by { assert b * (sxx + u * u) == b * sxx + b * (u * u); }
    assert e * (sy + v) == e * sy + e * v;
    assert b * (e * (sx + u)) == b * (e * sx) + b * (e * u) by { assert e * (sx + u) == e * sx + e * u; }
    assert (n + 1.0) * (e * e) == n * (e * e) + e * e;
    ResidualSquare(u, v, b, e);
  }

  lemma ResidualSquare(u: real, v: real, b: real, e: real)
    ensures (v - b * u - e) * (v - b * u - e) == v * v - 2.0 * (b * (u * v)) + b * (b * (u * u)) - 2.0 * (e * v) + 2.0 * (b * (e * u)) + e * e
  {
    var w := b * u;
    assert (v - w - e) * (v - w - e) == v * v - 2.0 * (w * v) + w * w - 2.0 * (e * v) + 2.0 * (w * e) + e * e;
    assert w * v == b * (u * v) && w * w == b * (b * (u * u)) && w * e == b * (e * u);
  }

  lemma Residual(x: real, y: real, mx: real, my: real, b: real, e: real)
    ensures y - ((my - b * mx + e) + b * x) == (y - my) - b * (x - mx) - e
  {
  }

  lemma ExpansionGrows(txx: real, txy: real, tyy: real, tx: real, ty: real, m: real,
                       sxx: real, sxy: real, syy: real, sx: real, sy: real, n: real, b: real, e: real, u: real, v: real)
    requires txx == sxx + u * u && txy == sxy + u * v && tyy == syy + v * v
    requires tx == sx + u && ty == sy + v && m == n + 1.0
    ensures Expansion(txx, txy, tyy, tx, ty, m, b, e) == Expansion(sxx, sxy, syy, sx, sy, n, b, e) + Square(v - b * u - e)
  {
    ExpansionStep(sxx, sxy, syy, sx, sy, n, b, e, u, v);
  }

  /** The centred sums of the data, in the form they enter a residual sum with slope b and offset e. */
  function Centred(x: seq<real>, y: seq<real>, mx: real, my: real, b: real, e: real): real
    requires |x| == |y|
  {
    var (cx, cy) := (Shifted(x, mx), Shifted(y, my));
    Expansion(Dot(cx, cx), Dot(cx, cy), Dot(cy, cy), Sum(cx), Sum(cy), |x| as real, b, e)
  }

  lemma CentredStep(x: seq<real>, y: seq<real>, mx: real, my: real, b: real, e: real, u: real, v: real)
    requires |x| == |y| > 0 && u == x[|x| - 1] - mx && v == y[|y| - 1] - my
    ensures var n := |x| - 1; Centred(x, y, mx, my, b, e) == Centred(x[..n], y[..n], mx, my, b, e) + Square(v - b * u - e)
  {
    var n := |x| - 1;
    var (cx, cy, dx, dy) := (Shifted(x, mx), Shifted(y, my), Shifted(x[..n], mx), Shifted(y[..n], my));
    DotStep(x, x, mx, mx, u, u);
    DotStep(x, y, mx, my, u, v);
    DotStep(y, y, my, my, v, v);
    SumStep(x, mx);
    SumStep(y, my);
    ExpansionGrows(Dot(cx, cx), Dot(cx, cy), Dot(cy, cy), Sum(cx), Sum(cy), |x| as real,
                   Dot(dx, dx), Dot(dx, dy), Dot(dy, dy), Sum(dx), Sum(dy), n as real, b, e, u, v);
  }

  lemma NothingExpands(b: real, e: real)
    ensures Expansion(0.0, 0.0, 0.0, 0.0, 0.0, 0.0, b, e) == 0.0
  {
  }

  lemma SsrOfNothing(mx: real, my: real, a: real, b: real, e: real)
    ensures Ssr([], [], a, b) == Centred([], [], mx, my, b, e)
  {
    NothingExpands(b, e);
  }

  lemma SsrGrows(x: seq<real>, y: seq<real>, mx: real, my: real, a: real, b: real, e: real)
    requires |x| == |y| > 0 && a == my - b * mx + e
    ensures var n := |x| - 1; Ssr(x, y, a, b) - Ssr(x[..n], y[..n], a, b) == Centred(x, y, mx, my, b, e) - Centred(x[..n], y[..n], mx, my, b, e)
  {
    var (u, v) := (x[|x| - 1] - mx, y[|x| - 1] - my);
    SsrStep(x, y, mx, my, a, b, e, u, v);
    CentredStep(x, y, mx, my, b, e, u, v);
  }

  /** The residual sum around the centred data; mx and my may be any shifts. */
  lemma {:induction false} SsrExpansion(x: seq<real>, y: seq<real>, mx: real, my: real, a: real, b: real, e: real)
    requires |x| == |y| && a == my - b * mx + e
    ensures Ssr(x, y, a, b) == Centred(x, y, mx, my, b, e)
  {
    if x == [] {
      SsrOfNothing(mx, my, a, b, e);
    } else {
      SsrExpansion(x[..|x| - 1], y[..|x| - 1], mx, my, a, b, e);
      SsrGrows(x, y, mx, my, a, b, e);
    }
  }

  lemma {:induction false} ShiftedSum(xs: seq<real>, m: real)
    ensures Sum(Shifted(xs, m)) == Sum(xs) - |xs| as real * m
  {
    if xs != [] {
      var n := |xs| - 1;
      ShiftedSum(xs[..n], m);
      assert Shifted(xs, m)[..n] == Shifted(xs[..n], m);
      assert (n as real + 1.0) * m == n as real * m + m;
    }
  }

  lemma CentredSum(xs: seq<real>)
    requires xs != []
    ensures Sum(Shifted(xs, Mean(xs))) == 0.0
  {
    ShiftedSum(xs, Mean(xs));
    var n := |xs| as real;
    assert n * (Sum(xs) / n) == Sum(xs);
  }

  /** No other line has a smaller sum of squared residuals. */
  lemma OlsMinimises(x: seq<real>, y: seq<real>, a: real, b: real)
    requires Ols(x, y).Line?
    ensures |x| == |y| && Ssr(x, y, Ols(x, y).a, Ols(x, y).b) <= Ssr(x, y, a, b)
  {
    var (mx, my) := (Mean(x), Mean(y));
    var (best, e) := (Ols(x, y).b, a - (my - b * mx));
    SsrExpansion(x, y, mx, my, Ols(x, y).a, best, 0.0);
    SsrExpansion(x, y, mx, my, a, b, e);
    CentredExcess(x, y, best, b, e);
  }

  lemma CentredExcess(x: seq<real>, y: seq<real>, best: real, b: real, e: real)
    requires Ols(x, y).Line? && best == Ols(x, y).b
    ensures Centred(x, y, Mean(x), Mean(y), best, 0.0) <= Centred(x, y, Mean(x), Mean(y), b, e)
  {
    var (cx, cy) := (Shifted(x, Mean(x)), Shifted(y, Mean(y)));
    CentredSum(x);
    CentredSum(y);
    DotSquareNonNegative(cx);
    Undivide(Dot(cx, cy), Dot(cx, cx));
    Excess(Dot(cx, cx), Dot(cx, cy), Dot(cy, cy), best, b, e, |x| as real);
  }

  lemma Undivide(p: real, q: real)
    requires q != 0.0
    ensures (p / q) * q == p
  {
  }

  lemma Excess(sxx: real, sxy: real, syy: real, best: real, b: real, e: real, n: real)
    requires best * sxx == sxy && sxx >= 0.0 && n >= 0.0
    ensures Expansion(sxx, sxy, syy, 0.0, 0.0, n, best, 0.0) <= Expansion(sxx, sxy, syy, 0.0, 0.0, n, b, e)
  {
    var d := b - best;
    assert d * d >= 0.0 && e * e >= 0.0;
    NonNegative(d * d, sxx);
    NonNegative(n, e * e);
    Spread(sxx, best, b);
  }

  lemma NonNegative(p: real, q: real)
    requires p >= 0.0 && q >= 0.0
    ensures p * q >= 0.0
  {
  }

  lemma Spread(sxx: real, best: real, b: real)
    ensures (b - best) * (b - best) * sxx == b * (b * sxx) - 2.0 * (b * (best * sxx)) + best * (best * sxx)
  {
  }
}
