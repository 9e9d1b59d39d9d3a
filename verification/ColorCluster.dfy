/** Brand colours: normalising the sources' weights and merging near-identical colours. */
module ColorCluster {
  import opened Common

  datatype Rgb = Rgb(r: nat, g: nat, b: nat)

  datatype Colour = Colour(rgb: Rgb, weight: real, sources: set<string>)

  /** deltaE, the colour distance: not assumed symmetric, or a metric at all. */
  type Distance = (Rgb, Rgb) -> real

  function Total(colours: seq<Colour>): real {
    if colours == [] then 0.0 else Total(colours[..|colours| - 1]) + colours[|colours| - 1].weight
  }

  lemma {:induction false} TotalOfJoin(a: seq<Colour>, b: seq<Colour>)
    ensures Total(a + b) == Total(a) + Total(b)
  {
    if b == [] {
      assert a + b == a;
    } else {
      TotalOfJoin(a, b[..|b| - 1]);
      assert (a + b)[..|a + b| - 1] == a + b[..|b| - 1];
    }
  }

  // ------------------------------------------------------------------ the stable sort by descending weight

  function Insert(sorted: seq<Colour>, c: Colour): seq<Colour> {
    if sorted == [] || sorted[|sorted| - 1].weight >= c.weight then sorted + [c]
    else Insert(sorted[..|sorted| - 1], c) + [sorted[|sorted| - 1]]
  }

  function Heaviest(colours: seq<Colour>): seq<Colour> {
    if colours == [] then [] else Insert(Heaviest(colours[..|colours| - 1]), colours[|colours| - 1])
  }

  predicate Descending(colours: seq<Colour>) {
    forall i, j | 0 <= i < j < |colours| :: colours[i].weight >= colours[j].weight
  }

  lemma {:induction false} InsertKeeps(sorted: seq<Colour>, c: Colour)
    ensures multiset(Insert(sorted, c)) == multiset(sorted) + multiset{c}
    ensures Total(Insert(sorted, c)) == Total(sorted) + c.weight
  {
    if sorted != [] && sorted[|sorted| - 1].weight < c.weight {
      var (front, last) := (sorted[..|sorted| - 1], sorted[|sorted| - 1]);
      InsertKeeps(front, c);
      assert sorted == front + [last];
      assert (Insert(front, c) + [last])[..|Insert(front, c)|] == Insert(front, c);
    } else {
      assert (sorted + [c])[..|sorted|] == sorted;
    }
  }

  lemma {:induction false} InsertSorts(sorted: seq<Colour>, c: Colour)
    requires Descending(sorted)
    ensures Descending(Insert(sorted, c))
  {
    if sorted != [] && sorted[|sorted| - 1].weight < c.weight {
      var (front, last) := (sorted[..|sorted| - 1], sorted[|sorted| - 1]);
      InsertSorts(front, c);
      InsertKeeps(front, c);
      LastIsLightest(Insert(front, c), front, c, last);
    }
  }

  lemma LastIsLightest(r: seq<Colour>, front: seq<Colour>, c: Colour, last: Colour)
    requires Descending(r) && multiset(r) == multiset(front) + multiset{c} && c.weight >= last.weight
    requires forall x | x in front :: x.weight >= last.weight
    ensures Descending(r + [last])
  {
    forall i | 0 <= i < |r| ensures r[i].weight >= last.weight { assert r[i] in multiset(front) + multiset{c}; }
  }

  lemma {:induction false} HeaviestSorts(colours: seq<Colour>)
    ensures Descending(Heaviest(colours)) && multiset(Heaviest(colours)) == multiset(colours)
    ensures Total(Heaviest(colours)) == Total(colours)
  {
    if colours != [] {
      var (front, last) := (colours[..|colours| - 1], colours[|colours| - 1]);
      assert colours == front + [last];
      HeaviestSorts(front);
      InsertSorts(Heaviest(front), last);
      InsertKeeps(Heaviest(front), last);
    }
  }

  /** The colours of one weight, in order. */
  function OfWeight(colours: seq<Colour>, w: real): seq<Colour> {
    if colours == [] then []
    else OfWeight(colours[..|colours| - 1], w) + if colours[|colours| - 1].weight == w then [colours[|colours| - 1]] else []
  }

  lemma OfWeightSnoc(colours: seq<Colour>, c: Colour, w: real)
    ensures OfWeight(colours + [c], w) == OfWeight(colours, w) + if c.weight == w then [c] else []
  {
    assert (colours + [c])[..|colours|] == colours;
  }

  lemma {:induction false} InsertIsStable(sorted: seq<Colour>, c: Colour, w: real)
    ensures OfWeight(Insert(sorted, c), w) == OfWeight(sorted, w) + if c.weight == w then [c] else []
  {
    if sorted != [] && sorted[|sorted| - 1].weight < c.weight {
      var (front, last) := (sorted[..|sorted| - 1], sorted[|sorted| - 1]);
      InsertIsStable(front, c, w);
      OfWeightSnoc(Insert(front, c), last, w);
    } else {
      OfWeightSnoc(sorted, c, w);
    }
  }

  /** Colours of the same weight keep their order. */
  lemma {:induction false} HeaviestIsStable(colours: seq<Colour>, w: real)
    ensures OfWeight(Heaviest(colours), w) == OfWeight(colours, w)
  {
    if colours != [] {
      HeaviestIsStable(colours[..|colours| - 1], w);
      InsertIsStable(Heaviest(colours[..|colours| - 1]), colours[|colours| - 1], w);
    }
  }

  lemma HeaviestMembers(colours: seq<Colour>, c: Colour)
    ensures c in Heaviest(colours) <==> c in colours
  {
    HeaviestSorts(colours);
    assert c in multiset(Heaviest(colours)) <==> c in multiset(colours);
  }

  // ------------------------------------------------------------------ greedy clustering

  /** The first representative from i on that is closer to c than the threshold, or |out|. */
  function HomeFrom(out: seq<Colour>, c: Colour, near: Distance, threshold: real, i: nat): (h: nat)
    requires i <= |out|
    ensures i <= h <= |out|
    decreases |out| - i
  {
    if i == |out| || near(out[i].rgb, c.rgb) < threshold then i else HomeFrom(out, c, near, threshold, i + 1)
  }

  function Home(out: seq<Colour>, c: Colour, near: Distance, threshold: real): (h: nat)
    ensures h <= |out|
  {
    HomeFrom(out, c, near, threshold, 0)
  }

  lemma {:induction false} HomeIsFirst(out: seq<Colour>, c: Colour, near: Distance, threshold: real, i: nat)
    requires i <= |out|
    ensures var h := HomeFrom(out, c, near, threshold, i);
            && (h < |out| ==> near(out[h].rgb, c.rgb) < threshold)
            && forall k | i <= k < h :: near(out[k].rgb, c.rgb) >= threshold
    decreases |out| - i
  {
    if i < |out| && near(out[i].rgb, c.rgb) >= threshold { HomeIsFirst(out, c, near, threshold, i + 1); }
  }

  function Absorb(out: seq<Colour>, c: Colour, near: Distance, threshold: real): seq<Colour> {
    var h := Home(out, c, near, threshold);
    if h == |out| then out + [c]
    else out[h := Colour(out[h].rgb, out[h].weight + c.weight, out[h].sources + c.sources)]
  }

  /** The clusters after the first n colours, in order of creation. */
  function Clustered(colours: seq<Colour>, n: nat, near: Distance, threshold: real): seq<Colour>
    requires n <= |colours|
  {
    if n == 0 then [] else Absorb(Clustered(colours, n - 1, near, threshold), colours[n - 1], near, threshold)
  }

  function Clusters(colours: seq<Colour>, near: Distance, threshold: real): seq<Colour> {
    var sorted := Heaviest(colours);
    Heaviest(Clustered(sorted, |sorted|, near, threshold))
  }

  /** The index of the first representative closer than the threshold, or the length if there is none. */
  method Find(out: seq<Colour>, c: Colour, near: Distance, threshold: real) returns (h: nat)
    ensures h == Home(out, c, near, threshold)
  {
    h := 0;
    while h < |out| && near(out[h].rgb, c.rgb) >= threshold
      invariant h <= |out| && HomeFrom(out, c, near, threshold, h) == Home(out, c, near, threshold)
    {
      h := h + 1;
    }
  }

  method Cluster(colours: seq<Colour>, near: Distance, threshold: real) returns (out: seq<Colour>)
    ensures out == Clusters(colours, near, threshold)
  {
    var sorted := Heaviest(colours);
    out := [];
    for n := 0 to |sorted|
      invariant out == Clustered(sorted, n, near, threshold)
    {
      var c := sorted[n];
      var hit := Find(out, c, near, threshold);
      if hit < |out| {
        out := out[hit := out[hit].(weight := out[hit].weight + c.weight)];
        out := out[hit := out[hit].(sources := out[hit].sources + c.sources)];
      } else {
        out := out + [c];
      }
    }
    out := Heaviest(out);
  }

  // ------------------------------------------------------------------ which colour went where

  /** The cluster that colour k joined or founded. */
  function Owner(colours: seq<Colour>, k: nat, near: Distance, threshold: real): nat
    requires k < |colours|
  {
    Home(Clustered(colours, k, near, threshold), colours[k], near, threshold)
  }

  /** The weight the first n colours brought to cluster o. */
  function Brought(colours: seq<Colour>, n: nat, near: Distance, threshold: real, o: nat): real
    requires n <= |colours|
  {
    if n == 0 then 0.0
    else Brought(colours, n - 1, near, threshold, o) + if Owner(colours, n - 1, near, threshold) == o then colours[n - 1].weight else 0.0
  }

  lemma {:induction false} ClusteredGrows(colours: seq<Colour>, n: nat, m: nat, near: Distance, threshold: real)
    requires n <= m <= |colours|
    ensures var (a, b) := (Clustered(colours, n, near, threshold), Clustered(colours, m, near, threshold));
            |a| <= |b| && forall i | 0 <= i < |a| :: b[i].rgb == a[i].rgb
    decreases m
  {
    if n < m { ClusteredGrows(colours, n, m - 1, near, threshold); }
  }

  /** Every colour belongs to a cluster whose representative it is, or is close to. */
  lemma EachHasHome(colours: seq<Colour>, k: nat, n: nat, near: Distance, threshold: real)
    requires k < n <= |colours|
    ensures var (o, out) := (Owner(colours, k, near, threshold), Clustered(colours, n, near, threshold));
            && o < |out|
            && (out[o].rgb == colours[k].rgb || near(out[o].rgb, colours[k].rgb) < threshold)
            && forall i | 0 <= i < o :: near(out[i].rgb, colours[k].rgb) >= threshold
  {
    ClusteredGrows(colours, k, n, near, threshold);
    ClusteredGrows(colours, k + 1, n, near, threshold);
    HomeIsFirst(Clustered(colours, k, near, threshold), colours[k], near, threshold, 0);
  }

  ghost predicate Apart(out: seq<Colour>, near: Distance, threshold: real) {
    forall i, j | 0 <= i < j < |out| :: near(out[i].rgb, out[j].rgb) >= threshold
  }

  lemma AbsorbKeepsApart(out: seq<Colour>, c: Colour, near: Distance, threshold: real)
    requires Apart(out, near, threshold)
    ensures Apart(Absorb(out, c, near, threshold), near, threshold)
  {
    var r := Absorb(out, c, near, threshold);
    HomeIsFirst(out, c, near, threshold, 0);
    assert forall i | 0 <= i < |out| :: r[i].rgb == out[i].rgb;
    forall i, j | 0 <= i < j < |r| ensures near(r[i].rgb, r[j].rgb) >= threshold {
      assert j < |out| ==> near(out[i].rgb, out[j].rgb) >= threshold;
    }
  }

  /** The representatives are pairwise at least the threshold apart, the earlier measured against the later. */
  lemma {:induction false} RepresentativesApart(colours: seq<Colour>, n: nat, near: Distance, threshold: real)
    requires n <= |colours|
    ensures Apart(Clustered(colours, n, near, threshold), near, threshold)
  {
    if n > 0 {
      RepresentativesApart(colours, n - 1, near, threshold);
      AbsorbKeepsApart(Clustered(colours, n - 1, near, threshold), colours[n - 1], near, threshold);
    }
  }

  /** A cluster weighs what its colours brought, and nothing is brought to a cluster that does not exist. */
  lemma {:induction false} WeightIsBrought(colours: seq<Colour>, n: nat, near: Distance, threshold: real, o: nat)
    requires n <= |colours|
    ensures var out := Clustered(colours, n, near, threshold);
            Brought(colours, n, near, threshold, o) == if o < |out| then out[o].weight else 0.0
  {
    if n > 0 { WeightIsBrought(colours, n - 1, near, threshold, o); }
  }

  /** No colour belongs to a cluster that has not been founded yet. */
  lemma NobodyYet(colours: seq<Colour>, n: nat, near: Distance, threshold: real)
    requires n <= |colours|
    ensures forall k: nat | k < n :: Owner(colours, k, near, threshold) < |Clustered(colours, n, near, threshold)|
  {
    forall k: nat | k < n ensures Owner(colours, k, near, threshold) < |Clustered(colours, n, near, threshold)| {
      EachHasHome(colours, k, n, near, threshold);
    }
  }

  /** One of the first n colours of cluster o came with source s. */
  ghost predicate SomeBrought(colours: seq<Colour>, n: nat, near: Distance, threshold: real, o: nat, s: string) {
    n <= |colours| && exists k: nat | k < n :: Owner(colours, k, near, threshold) == o && s in colours[k].sources
  }

  lemma SomeBroughtStep(colours: seq<Colour>, n: nat, near: Distance, threshold: real, o: nat, s: string)
    requires 0 < n <= |colours|
    ensures SomeBrought(colours, n, near, threshold, o, s)
       <==> SomeBrought(colours, n - 1, near, threshold, o, s) || (Owner(colours, n - 1, near, threshold) == o && s in colours[n - 1].sources)
  {
  }

  lemma {:induction false} SourcesAreBrought(colours: seq<Colour>, n: nat, near: Distance, threshold: real, o: nat, s: string)
    requires n <= |colours| && o < |Clustered(colours, n, near, threshold)|
    ensures s in Clustered(colours, n, near, threshold)[o].sources <==> SomeBrought(colours, n, near, threshold, o, s)
  {
    if o < |Clustered(colours, n - 1, near, threshold)| {
      SourcesAreBrought(colours, n - 1, near, threshold, o, s);
    } else {
      NobodyYet(colours, n - 1, near, threshold);
    }
    SomeBroughtStep(colours, n, near, threshold, o, s);
  }

  /** Colour f founded cluster o, represents it and is the heaviest of its first n colours. */
  ghost predicate Founder(colours: seq<Colour>, n: nat, near: Distance, threshold: real, o: nat, f: nat) {
    && f < n <= |colours| && o < |Clustered(colours, n, near, threshold)|
    && Clustered(colours, n, near, threshold)[o].rgb == colours[f].rgb
    && Owner(colours, f, near, threshold) == o
    && forall k: nat | k < n && Owner(colours, k, near, threshold) == o :: f <= k && colours[f].weight >= colours[k].weight
  }

  lemma FounderStays(colours: seq<Colour>, n: nat, near: Distance, threshold: real, o: nat, f: nat)
    requires Descending(colours) && 0 < n <= |colours| && Founder(colours, n - 1, near, threshold, o, f)
    ensures Founder(colours, n, near, threshold, o, f)
  {
    ClusteredGrows(colours, n - 1, n, near, threshold);
    assert colours[f].weight >= colours[n - 1].weight;
  }

  lemma {:induction false} FounderIsHeaviest(colours: seq<Colour>, n: nat, near: Distance, threshold: real, o: nat)
    requires Descending(colours) && n <= |colours| && o < |Clustered(colours, n, near, threshold)|
    ensures exists f: nat :: Founder(colours, n, near, threshold, o, f)
  {
    if o < |Clustered(colours, n - 1, near, threshold)| {
      FounderIsHeaviest(colours, n - 1, near, threshold, o);
      var f: nat :| Founder(colours, n - 1, near, threshold, o, f);
      FounderStays(colours, n, near, threshold, o, f);
    } else {
      FoundedLast(colours, n, near, threshold, o);
    }
  }

  lemma FoundedLast(colours: seq<Colour>, n: nat, near: Distance, threshold: real, o: nat)
    requires 0 < n <= |colours| && |Clustered(colours, n - 1, near, threshold)| <= o < |Clustered(colours, n, near, threshold)|
    ensures Founder(colours, n, near, threshold, o, n - 1)
  {
    NobodyYet(colours, n - 1, near, threshold);
  }

  lemma TotalOfUpdate(colours: seq<Colour>, i: nat, c: Colour)
    requires i < |colours|
    ensures Total(colours[i := c]) == Total(colours) - colours[i].weight + c.weight
  {
    var (a, b) := (colours[..i], colours[i + 1..]);
    assert colours == a + [colours[i]] + b && colours[i := c] == a + [c] + b;
    TotalOfJoin(a + [colours[i]], b);
    TotalOfJoin(a + [c], b);
    TotalOfJoin(a, [colours[i]]);
    TotalOfJoin(a, [c]);
  }

  lemma {:induction false} ClusteredConserves(colours: seq<Colour>, n: nat, near: Distance, threshold: real)
    requires n <= |colours|
    ensures Total(Clustered(colours, n, near, threshold)) == Total(colours[..n])
  {
    if n > 0 {
      var (out, c) := (Clustered(colours, n - 1, near, threshold), colours[n - 1]);
      ClusteredConserves(colours, n - 1, near, threshold);
      assert colours[..n][..n - 1] == colours[..n - 1];
      var h := Home(out, c, near, threshold);
      if h < |out| {
        TotalOfUpdate(out, h, Colour(out[h].rgb, out[h].weight + c.weight, out[h].sources + c.sources));
      } else {
        assert (out + [c])[..|out|] == out;
      }
    }
  }

  /** Clustering moves weight between colours but never makes or loses any. */
  lemma WeightIsConserved(colours: seq<Colour>, near: Distance, threshold: real)
    ensures Total(Clusters(colours, near, threshold)) == Total(colours)
    ensures Descending(Clusters(colours, near, threshold))
  {
    var sorted := Heaviest(colours);
    HeaviestSorts(colours);
    ClusteredConserves(sorted, |sorted|, near, threshold);
    HeaviestSorts(Clustered(sorted, |sorted|, near, threshold));
    assert sorted[..|sorted|] == sorted;
  }

  /** Every input colour is in the palette, or close to a colour that is. */
  lemma PaletteCovers(colours: seq<Colour>, near: Distance, threshold: real, c: Colour) returns (r: Colour)
    requires c in colours
    ensures r in Clusters(colours, near, threshold) && (r.rgb == c.rgb || near(r.rgb, c.rgb) < threshold)
  {
    var sorted := Heaviest(colours);
    HeaviestMembers(colours, c);
    var k :| 0 <= k < |sorted| && sorted[k] == c;
    EachHasHome(sorted, k, |sorted|, near, threshold);
    r := Clustered(sorted, |sorted|, near, threshold)[Owner(sorted, k, near, threshold)];
    HeaviestMembers(Clustered(sorted, |sorted|, near, threshold), r);
  }

  /** Every colour of the palette is an input's, and the heaviest of those merged into it. */
  lemma PaletteIsFounded(colours: seq<Colour>, near: Distance, threshold: real, r: Colour) returns (o: nat, f: nat)
    requires r in Clusters(colours, near, threshold)
    ensures Founder(Heaviest(colours), |Heaviest(colours)|, near, threshold, o, f) && Heaviest(colours)[f] in colours
    ensures r.rgb == Heaviest(colours)[f].rgb && r.weight == Brought(Heaviest(colours), |Heaviest(colours)|, near, threshold, o)
  {
    var sorted := Heaviest(colours);
    var made := Clustered(sorted, |sorted|, near, threshold);
    HeaviestSorts(colours);
    HeaviestMembers(made, r);
    o :| 0 <= o < |made| && made[o] == r;
    FounderIsHeaviest(sorted, |sorted|, near, threshold, o);
    f :| Founder(sorted, |sorted|, near, threshold, o, f);
    WeightIsBrought(sorted, |sorted|, near, threshold, o);
    HeaviestMembers(colours, sorted[f]);
  }

  /** Two palette colours are never within the threshold of each other in both directions. */
  lemma PaletteIsApart(colours: seq<Colour>, near: Distance, threshold: real, r: Colour, q: Colour)
    requires r in Clusters(colours, near, threshold) && q in Clusters(colours, near, threshold) && r != q
    ensures near(r.rgb, q.rgb) >= threshold || near(q.rgb, r.rgb) >= threshold
  {
    var sorted := Heaviest(colours);
    var made := Clustered(sorted, |sorted|, near, threshold);
    RepresentativesApart(sorted, |sorted|, near, threshold);
    HeaviestMembers(made, r);
    HeaviestMembers(made, q);
    var i :| 0 <= i < |made| && made[i] == r;
    var j :| 0 <= j < |made| && made[j] == q;
    if i < j { assert near(made[i].rgb, made[j].rgb) >= threshold; } else { assert near(made[j].rgb, made[i].rgb) >= threshold; }
  }

  // ------------------------------------------------------------------ normalise

  /** The two input shapes: colour strings with weights, or colours already parsed. */
  datatype Input = Table(table: seq<(string, real)>) | Parsed(list: seq<(Rgb, real)>)

  function Entries(parse: string -> Option<Rgb>, input: Input): seq<(Rgb, real)> {
    match input
    case Parsed(list) => list
    case Table(table) => Readable(parse, table)
  }

  function Readable(parse: string -> Option<Rgb>, table: seq<(string, real)>): seq<(Rgb, real)> {
    if table == [] then []
    else
      var c := parse(table[0].0);
      (if c.Some? then [(c.value, table[0].1)] else []) + Readable(parse, table[1..])
  }

  /** `at` are the rows from `first` on whose colour can be read, in order; each gives its colour and its weight. */
  lemma {:induction false} ReadableMeans(parse: string -> Option<Rgb>, table: seq<(string, real)>, first: nat) returns (at: seq<nat>)
    requires first <= |table|
    ensures var r := Readable(parse, table[first..]);
            |at| == |r| && forall i | 0 <= i < |at| :: first <= at[i] < |table| && parse(table[at[i]].0) == Some(r[i].0) && table[at[i]].1 == r[i].1
    ensures forall i, j | 0 <= i < j < |at| :: at[i] < at[j]
    ensures forall k | first <= k < |table| && parse(table[k].0).Some? :: k in at
    decreases |table| - first
  {
    at := [];
    if first < |table| {
      at := ReadableMeans(parse, table, first + 1);
      assert table[first..][1..] == table[first + 1..];
      if parse(table[first].0).Some? { at := [first] + at; }
    }
  }

  function EntryWeight(entries: seq<(Rgb, real)>): real { if entries == [] then 0.0 else EntryWeight(entries[..|entries| - 1]) + entries[|entries| - 1].1 }

  function Scaled(entries: seq<(Rgb, real)>, total: real, share: real, source: string): seq<Colour>
    requires total != 0.0
  {
    seq(|entries|, i requires 0 <= i < |entries| => Colour(entries[i].0, entries[i].1 / total * share, {source}))
  }

  function Normalise(parse: string -> Option<Rgb>, input: Input, share: real, source: string): seq<Colour> {
    var entries := Entries(parse, input);
    if EntryWeight(entries) <= 0.0 then [] else Scaled(entries, EntryWeight(entries), share, source)
  }

  lemma Fraction(a: real, b: real, total: real, share: real)
    requires total != 0.0
    ensures (a + b) / total * share == a / total * share + b / total * share
  {
    assert (a + b) / total == a / total + b / total;
  }

  lemma ScaledFront(entries: seq<(Rgb, real)>, total: real, share: real, source: string)
    requires total != 0.0 && entries != []
    ensures Scaled(entries, total, share, source)[..|entries| - 1] == Scaled(entries[..|entries| - 1], total, share, source)
  {
    var (a, b) := (Scaled(entries, total, share, source)[..|entries| - 1], Scaled(entries[..|entries| - 1], total, share, source));
    forall i | 0 <= i < |entries| - 1 ensures a[i] == b[i] { assert entries[..|entries| - 1][i] == entries[i]; }
  }

  lemma {:induction false} ScaledTotal(entries: seq<(Rgb, real)>, total: real, share: real, source: string)
    requires total != 0.0
    ensures Total(Scaled(entries, total, share, source)) == EntryWeight(entries) / total * share
  {
    if entries != [] {
      var front := entries[..|entries| - 1];
      ScaledTotal(front, total, share, source);
      ScaledFront(entries, total, share, source);
      Fraction(EntryWeight(front), entries[|front|].1, total, share);
    }
  }

  predicate Counts(parse: string -> Option<Rgb>, input: Input) { EntryWeight(Entries(parse, input)) > 0.0 }

  /** A source with any weight contributes exactly its share. */
  lemma NormaliseTotal(parse: string -> Option<Rgb>, input: Input, share: real, source: string)
    ensures Total(Normalise(parse, input, share, source)) == if Counts(parse, input) then share else 0.0
  {
    var entries := Entries(parse, input);
    if EntryWeight(entries) > 0.0 { ScaledTotal(entries, EntryWeight(entries), share, source); }
  }

  /** Each colour of a source keeps its place and gets its part of the source's weight, in proportion. */
  lemma NormaliseInProportion(parse: string -> Option<Rgb>, input: Input, share: real, source: string, i: nat)
    requires Counts(parse, input) && i < |Entries(parse, input)|
    ensures var (entries, r) := (Entries(parse, input), Normalise(parse, input, share, source));
            && |r| == |entries| && r[i].rgb == entries[i].0 && r[i].sources == {source}
            && r[i].weight * EntryWeight(entries) == entries[i].1 * share
  {
    var (w, total) := (Entries(parse, input)[i].1, EntryWeight(Entries(parse, input)));
    InProportion(w / total, w, total, share);
  }

  lemma InProportion(q: real, w: real, total: real, share: real)
    requires total != 0.0 && q == w / total
    ensures q * share * total == w * share
  {
    assert q * total == w;
    assert q * share * total == (q * total) * share;
  }

  datatype Source = Source(input: Input, share: real, name: string)

  /** All sources normalised, in order: what the palette is clustered from. */
  function Gathered(parse: string -> Option<Rgb>, sources: seq<Source>): seq<Colour> {
    if sources == [] then []
    else Normalise(parse, sources[0].input, sources[0].share, sources[0].name) + Gathered(parse, sources[1..])
  }

  function Shares(parse: string -> Option<Rgb>, sources: seq<Source>): real {
    if sources == [] then 0.0 else (if Counts(parse, sources[0].input) then sources[0].share else 0.0) + Shares(parse, sources[1..])
  }

  lemma {:induction false} GatheredTotal(parse: string -> Option<Rgb>, sources: seq<Source>)
    ensures Total(Gathered(parse, sources)) == Shares(parse, sources)
  {
    if sources != [] {
      var first := Normalise(parse, sources[0].input, sources[0].share, sources[0].name);
      NormaliseTotal(parse, sources[0].input, sources[0].share, sources[0].name);
      GatheredTotal(parse, sources[1..]);
      TotalOfJoin(first, Gathered(parse, sources[1..]));
    }
  }

  /** The palette weighs what the sources that saw any colour are worth together. */
  lemma PaletteWeight(parse: string -> Option<Rgb>, sources: seq<Source>, near: Distance, threshold: real)
    ensures Total(Clusters(Gathered(parse, sources), near, threshold)) == Shares(parse, sources)
  {
    GatheredTotal(parse, sources);
    WeightIsConserved(Gathered(parse, sources), near, threshold);
  }
}
