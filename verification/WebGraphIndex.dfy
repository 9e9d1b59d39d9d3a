/**
 * The on-disk web-graph index: an external sort by the key's first byte, a fan-out table over key
 * prefixes, and lookups that binary-search the packed file between two fan-out entries.
 * The reference it is proved against is `Scan`, a plain pass over the accepted input lines.
 */
module WebGraphIndex {
  import opened Common
  import opened Bytes

  const U32_LIMIT: nat := 0x1_0000_0000
  const MAGIC: seq<Byte> := [84, 69, 87, 71, 73, 48, 48, 49]  // "TEWGI001"
  const TAB: Byte := 9
  const HASH: Byte := 35
  const HEADER_SIZE := 32
  const RECORD_SIZE := 20
  const PARTITION_BITS := 8
  const PARTITIONS := 256

  type U32 = n: nat | n < 0x1_0000_0000

  type Key = k: seq<Byte> | |k| == 8 witness [0, 0, 0, 0, 0, 0, 0, 0]

  datatype Ranks = Ranks(rank: U32, prRank: U32, nHosts: U32)

  datatype Entry = Entry(key: Key, ranks: Ranks)

  /** What the model leaves open: int(bytes) and the blake2b-64 key of a stripped, lower-cased host. */
  datatype Codec = Codec(parseInt: seq<Byte> -> Option<int>, hostKey: seq<Byte> -> Key)

  // ------------------------------------------------------------------ input lines

  function Split(line: seq<Byte>): (cols: seq<seq<Byte>>)
    ensures cols != []
  {
    if line == [] then [[]]
    else
      var rest := Split(line[1..]);
      if line[0] == TAB then [[]] + rest else [[line[0]] + rest[0]] + rest[1..]
  }

  /** One line of the ranks file; None when the build skips it. */
  function Parse(c: Codec, line: seq<Byte>): Option<Entry> {
    var cols := Split(line);
    if |cols| < 5 || (line != [] && line[0] == HASH) then None
    else
      var hosts := if |cols| > 5 then c.parseInt(cols[5]) else Some(0);
      match (c.parseInt(cols[0]), c.parseInt(cols[2]), hosts)
      case (Some(rank), Some(pr), Some(n)) =>
        var capped := Min(n, U32_LIMIT - 1);
        if 0 <= rank < U32_LIMIT && 0 <= pr < U32_LIMIT && 0 <= capped
        then Some(Entry(c.hostKey(cols[4]), Ranks(rank, pr, capped)))
        else None
      case _ => None
  }

  function Accepted(c: Codec, lines: seq<seq<Byte>>): seq<Entry> {
    if lines == [] then []
    else
      var n := |lines| - 1;
      var e := Parse(c, lines[n]);
      Accepted(c, lines[..n]) + if e.Some? then [e.value] else []
  }

  // ------------------------------------------------------------------ the reference lookup

  predicate RanksLess(a: Ranks, b: Ranks) {
    a.rank < b.rank || (a.rank == b.rank && (a.prRank < b.prRank || (a.prRank == b.prRank && a.nHosts < b.nHosts)))
  }

  /** A linear scan that keeps the least ranks seen under `key`. */
  function Scan(es: seq<Entry>, key: Key): Option<Ranks> {
    if es == [] then None
    else
      var n := |es| - 1;
      var best := Scan(es[..n], key);
      if es[n].key == key && (best.None? || RanksLess(es[n].ranks, best.value)) then Some(es[n].ranks) else best
  }

  lemma {:induction false} ScanIsLeast(es: seq<Entry>, key: Key)
    ensures Scan(es, key).None? <==> forall e | e in es :: e.key != key
    ensures Scan(es, key).Some? ==> Entry(key, Scan(es, key).value) in es
    ensures Scan(es, key).Some? ==> forall e | e in es && e.key == key :: !RanksLess(e.ranks, Scan(es, key).value)
  {
    if es != [] {
      var n := |es| - 1;
      ScanIsLeast(es[..n], key);
      assert es == es[..n] + [es[n]];
      assert forall e | e in es :: e in es[..n] || e == es[n];
    }
  }

  // ------------------------------------------------------------------ packed records

  function Pack(e: Entry): (r: seq<Byte>)
    ensures |r| == RECORD_SIZE
  {
    e.key + ToBytes(e.ranks.rank, 4) + ToBytes(e.ranks.prRank, 4) + ToBytes(e.ranks.nHosts, 4)
  }

  function Unpack(r: seq<Byte>): (Key, nat, nat, nat)
    requires |r| == RECORD_SIZE
  {
    (r[..8], FromBytes(r[8..12]), FromBytes(r[12..16]), FromBytes(r[16..20]))
  }

  function PackAll(es: seq<Entry>): (rs: seq<seq<Byte>>)
    ensures |rs| == |es| && Uniform(rs, RECORD_SIZE)
  {
    seq(|es|, i requires 0 <= i < |es| => Pack(es[i]))
  }

  lemma PackRoundTrip(e: Entry)
    ensures Unpack(Pack(e)) == (e.key, e.ranks.rank, e.ranks.prRank, e.ranks.nHosts)
  {
    U32Span();
    var r := Pack(e);
    assert r[..8] == e.key && r[8..12] == ToBytes(e.ranks.rank, 4);
    assert r[12..16] == ToBytes(e.ranks.prRank, 4) && r[16..20] == ToBytes(e.ranks.nHosts, 4);
    RoundTrip(e.ranks.rank, 4);
    RoundTrip(e.ranks.prRank, 4);
    RoundTrip(e.ranks.nHosts, 4);
  }

  lemma U32Span()
    ensures Span(4) == U32_LIMIT
  {
    assert Span(2) == 65536;
  }

  lemma U32Less(a: U32, b: U32)
    ensures Less(ToBytes(a, 4), ToBytes(b, 4)) <==> a < b
    ensures ToBytes(a, 4) == ToBytes(b, 4) <==> a == b
  {
    U32Span();
    RoundTrip(a, 4);
    RoundTrip(b, 4);
    LessIsNumeric(ToBytes(a, 4), ToBytes(b, 4));
  }

  /** Byte order of packed records is tuple order (key, rank, PageRank rank, hosts). */
  lemma PackOrder(a: Entry, b: Entry)
    ensures Less(Pack(a), Pack(b)) <==> Less(a.key, b.key) || (a.key == b.key && RanksLess(a.ranks, b.ranks))
  {
    var (ar, ap, ah) := (ToBytes(a.ranks.rank, 4), ToBytes(a.ranks.prRank, 4), ToBytes(a.ranks.nHosts, 4));
    var (br, bp, bh) := (ToBytes(b.ranks.rank, 4), ToBytes(b.ranks.prRank, 4), ToBytes(b.ranks.nHosts, 4));
    U32Less(a.ranks.rank, b.ranks.rank);
    U32Less(a.ranks.prRank, b.ranks.prRank);
    U32Less(a.ranks.nHosts, b.ranks.nHosts);
    LessConcat(ap, ah, bp, bh);
    LessConcat(ar, ap + ah, br, bp + bh);
    LessConcat(a.key, ar + (ap + ah), b.key, br + (bp + bh));
    assert Pack(a) == a.key + (ar + (ap + ah)) && Pack(b) == b.key + (br + (bp + bh));
  }

  // ------------------------------------------------------------------ key prefixes

  function Prefix(r: seq<Byte>, bits: nat): nat
    requires |r| >= 8 && bits <= 64
  {
    Quotient(FromBytes(r[..8]), Pow2(64 - bits))
  }

  /** How many records have a `bits`-long key prefix below p. */
  function CountBelow(recs: seq<seq<Byte>>, bits: nat, p: nat): (n: nat)
    requires Uniform(recs, RECORD_SIZE) && bits <= 64
    ensures n <= |recs|
  {
    if recs == [] then 0
    else
      var k := |recs| - 1;
      CountBelow(recs[..k], bits, p) + if Prefix(recs[k], bits) < p then 1 else 0
  }

  lemma {:induction false} CountMonotone(recs: seq<seq<Byte>>, bits: nat, p: nat)
    requires Uniform(recs, RECORD_SIZE) && bits <= 64
    ensures CountBelow(recs, bits, p) <= CountBelow(recs, bits, p + 1)
  {
    if recs != [] { CountMonotone(recs[..|recs| - 1], bits, p); }
  }

  lemma {:induction false} CountAtPartitionPoint(recs: seq<seq<Byte>>, bits: nat, p: nat, k: nat)
    requires Uniform(recs, RECORD_SIZE) && bits <= 64 && k <= |recs|
    requires forall i | 0 <= i < |recs| :: i < k <==> Prefix(recs[i], bits) < p
    ensures CountBelow(recs, bits, p) == k
  {
    if recs != [] {
      var n := |recs| - 1;
      CountAtPartitionPoint(recs[..n], bits, p, if k == |recs| then k - 1 else k);
    }
  }

  lemma SortedByKey(a: seq<Byte>, b: seq<Byte>)
    requires |a| == |b| == RECORD_SIZE && AtMost(a, b)
    ensures FromBytes(a[..8]) <= FromBytes(b[..8])
  {
    assert a == a[..8] + a[8..] && b == b[..8] + b[8..];
    LessConcat(b[..8], b[8..], a[..8], a[8..]);
    LessIsNumeric(b[..8], a[..8]);
  }

  lemma DivMonotone(a: nat, b: nat, m: nat)
    requires m > 0 && a <= b
    ensures a / m <= b / m
  {
    DivBound(b, m, b / m + 1);
    DivBound(a, m, b / m + 1);
  }

  /** In a sorted list the records below a prefix are exactly the first CountBelow ones. */
  lemma {:induction false} CountIsPartitionPoint(recs: seq<seq<Byte>>, bits: nat, p: nat, i: nat)
    requires Uniform(recs, RECORD_SIZE) && Sorted(recs) && bits <= 64 && i < |recs|
    ensures i < CountBelow(recs, bits, p) <==> Prefix(recs[i], bits) < p
  {
    var n := |recs| - 1;
    if i < n {
      SortedByKey(recs[i], recs[n]);
      DivMonotone(FromBytes(recs[i][..8]), FromBytes(recs[n][..8]), Pow2(64 - bits));
      CountIsPartitionPoint(recs[..n], bits, p, i);
    } else if Prefix(recs[n], bits) < p {
      forall j | 0 <= j < |recs| ensures Prefix(recs[j], bits) < p {
        if j < n {
          SortedByKey(recs[j], recs[n]);
          DivMonotone(FromBytes(recs[j][..8]), FromBytes(recs[n][..8]), Pow2(64 - bits));
        }
      }
      CountAtPartitionPoint(recs, bits, p, |recs|);
    }
  }

  lemma Pow64(bits: nat)
    requires bits <= 64
    ensures Pow2(bits) * Pow2(64 - bits) == Span(8)
  {
    SpanIsPow2(8);
    Pow2Add(bits, 64 - bits);
  }

  /** Comparing a record with a prefix's first possible key compares the prefixes. */
  lemma ProbeMeaning(r: seq<Byte>, bits: nat, p: nat)
    requires |r| == RECORD_SIZE && bits <= 64 && p < Pow2(bits)
    ensures Less(r, Probe(p, bits)) <==> Prefix(r, bits) < p
  {
    var probe := Probe(p, bits);
    assert r == r[..8] + r[8..] && probe == probe + [];
    LessConcat(r[..8], r[8..], probe, []);
    LessIsNumeric(r[..8], probe);
    ProbeValue(p, bits);
    DivBound(FromBytes(r[..8]), Pow2(64 - bits), p);
  }

  /** The smallest key with prefix p. */
  function Probe(p: nat, bits: nat): seq<Byte>
    requires bits <= 64
  {
    ToBytes(p * Pow2(64 - bits), 8)
  }

  lemma ProbeValue(p: nat, bits: nat)
    requires bits <= 64 && p < Pow2(bits)
    ensures FromBytes(Probe(p, bits)) == p * Pow2(64 - bits)
  {
    Pow64(bits);
    Scale(p + 1, Pow2(bits), Pow2(64 - bits));
    RoundTrip(p * Pow2(64 - bits), 8);
  }

  lemma PrefixMonotone(a: seq<Byte>, b: seq<Byte>, bits: nat)
    requires |a| >= 8 && |b| >= 8 && bits <= 64
    ensures FromBytes(a[..8]) <= FromBytes(b[..8]) ==> Prefix(a, bits) <= Prefix(b, bits)
  {
    if FromBytes(a[..8]) <= FromBytes(b[..8]) {
      DivMonotone(FromBytes(a[..8]), FromBytes(b[..8]), Pow2(64 - bits));
    }
  }

  /** The partition a prefix belongs to: its top 8 bits. */
  function PartOf(p: nat, bits: nat): nat
    requires PARTITION_BITS <= bits
  {
    Quotient(p, Pow2(bits - PARTITION_BITS))
  }

  /** A record's first key byte is the partition of its prefix. */
  lemma PartOfRecord(r: seq<Byte>, bits: nat)
    requires |r| == RECORD_SIZE && PARTITION_BITS <= bits <= 64
    ensures PartOf(Prefix(r, bits), bits) == r[0]
  {
    var (k, m) := (FromBytes(r[..8]), Pow2(64 - bits));
    var (s, d) := (Pow2(bits - PARTITION_BITS), r[0] as nat);
    FirstByteBounds(r[..8]);
    assert Span(7) == s * m by { SpanIsPow2(7); Pow2Add(bits - PARTITION_BITS, 64 - bits); }
    ScaledBounds(d, s, m, k);
    DivBound(k / m, s, d);
    DivBound(k / m, s, d + 1);
  }

  lemma ScaledBounds(d: nat, s: nat, m: nat, k: nat)
    requires m > 0 && d * (s * m) <= k < (d + 1) * (s * m)
    ensures d * s <= k / m < (d + 1) * s
  {
    assert d * (s * m) == (d * s) * m && (d + 1) * (s * m) == ((d + 1) * s) * m;
    DivBound(k, m, d * s);
    DivBound(k, m, (d + 1) * s);
  }

  /** The s-th prefix of partition `part`. */
  lemma PartOfPrefix(bits: nat, part: nat, s: nat, sub: nat, first: nat)
    requires PARTITION_BITS <= bits && part < PARTITIONS && sub == Pow2(bits - PARTITION_BITS)
    requires s < sub && first == part * sub
    ensures PartOf(first + s, bits) == part
    ensures first + sub == (part + 1) * sub <= Pow2(bits)
  {
    Pow2Add(8, bits - PARTITION_BITS);
    assert Pow2(8) == PARTITIONS;
    Scale(part + 1, PARTITIONS, sub);
    assert (part + 1) * sub == part * sub + sub;
    DivBound(first + s, sub, part);
    DivBound(first + s, sub, part + 1);
  }

  lemma Scale(a: nat, b: nat, w: nat)
    requires a <= b
    ensures a * w <= b * w
  {
  }

  // ------------------------------------------------------------------ external sort

  function Bucket(recs: seq<seq<Byte>>, p: nat): (b: seq<seq<Byte>>)
    requires Uniform(recs, RECORD_SIZE)
    ensures Uniform(b, RECORD_SIZE)
    ensures forall r | r in b :: |r| == RECORD_SIZE && r[0] == p
  {
    if recs == [] then []
    else
      var n := |recs| - 1;
      Bucket(recs[..n], p) + if recs[n][0] == p then [recs[n]] else []
  }

  /** One partition, sorted. */
  function SortedPart(recs: seq<seq<Byte>>, p: nat): seq<seq<Byte>>
    requires Uniform(recs, RECORD_SIZE)
  {
    Sort(Bucket(recs, p))
  }

  /** The sorted partitions lo..hi one after the other. */
  function SortedParts(recs: seq<seq<Byte>>, lo: nat, hi: nat): seq<seq<Byte>>
    requires Uniform(recs, RECORD_SIZE) && lo <= hi
  {
    if lo == hi then [] else SortedParts(recs, lo, hi - 1) + SortedPart(recs, hi - 1)
  }

  ghost predicate FirstBytesIn(s: seq<seq<Byte>>, lo: nat, hi: nat) {
    forall i | 0 <= i < |s| :: |s[i]| == RECORD_SIZE && lo <= s[i][0] as int < hi
  }

  /** Sorted records whose first bytes are from lo up to (not including) hi. */
  ghost predicate SortedBlock(s: seq<seq<Byte>>, lo: nat, hi: nat) { Sorted(s) && FirstBytesIn(s, lo, hi) }

  lemma SortedBucket(recs: seq<seq<Byte>>, lo: nat, hi: nat)
    requires Uniform(recs, RECORD_SIZE) && hi == lo + 1
    ensures SortedBlock(SortedPart(recs, lo), lo, hi)
  {
    SortSorts(Bucket(recs, lo));
    PermutationMembers(Bucket(recs, lo), Sort(Bucket(recs, lo)));
  }

  lemma ConcatSorted(a: seq<seq<Byte>>, b: seq<seq<Byte>>, lo: nat, mid: nat, hi: nat)
    requires lo <= mid <= hi && SortedBlock(a, lo, mid) && SortedBlock(b, mid, hi)
    ensures SortedBlock(a + b, lo, hi)
  {
  }

  lemma {:induction false} SortedPartsSorted(recs: seq<seq<Byte>>, lo: nat, hi: nat)
    requires Uniform(recs, RECORD_SIZE) && lo <= hi
    ensures SortedBlock(SortedParts(recs, lo, hi), lo, hi)
    decreases hi
  {
    if lo == hi {
      assert SortedParts(recs, lo, hi) == [];
      return;
    }
    SortedPartsSorted(recs, lo, hi - 1);
    OneMorePart(recs, lo, hi);
  }

  lemma OneMorePart(recs: seq<seq<Byte>>, lo: nat, hi: nat)
    requires Uniform(recs, RECORD_SIZE) && lo < hi && SortedBlock(SortedParts(recs, lo, hi - 1), lo, hi - 1)
    ensures SortedBlock(SortedParts(recs, lo, hi), lo, hi)
  {
    SortedBucket(recs, hi - 1, hi);
    ConcatSorted(SortedParts(recs, lo, hi - 1), SortedPart(recs, hi - 1), lo, hi - 1, hi);
  }

  lemma ConcatAssociative<T>(a: seq<T>, b: seq<T>, c: seq<T>)
    ensures (a + b) + c == a + (b + c)
  {
  }

  lemma {:induction false} SortedPartsSplit(recs: seq<seq<Byte>>, lo: nat, mid: nat, hi: nat)
    requires Uniform(recs, RECORD_SIZE) && lo <= mid <= hi
    ensures SortedParts(recs, lo, hi) == SortedParts(recs, lo, mid) + SortedParts(recs, mid, hi)
    decreases hi
  {
    if mid < hi {
      SortedPartsSplit(recs, lo, mid, hi - 1);
      ConcatAssociative(SortedParts(recs, lo, mid), SortedParts(recs, mid, hi - 1), SortedPart(recs, hi - 1));
    } else {
      assert SortedParts(recs, mid, hi) == [];
    }
  }

  lemma {:induction false} SortedPartsMultiset(recs: seq<seq<Byte>>, r: seq<Byte>, hi: nat)
    requires Uniform(recs, RECORD_SIZE) && |r| == RECORD_SIZE
    ensures multiset(SortedParts(recs + [r], 0, hi)) ==
            multiset(SortedParts(recs, 0, hi)) + if r[0] as int < hi then multiset{r} else multiset{}
    decreases hi
  {
    if hi > 0 {
      SortedPartsMultiset(recs, r, hi - 1);
      SortSorts(Bucket(recs, hi - 1));
      SortSorts(Bucket(recs + [r], hi - 1));
      assert (recs + [r])[..|recs|] == recs;
    }
  }

  lemma {:induction false} SortedPartsEmpty(hi: nat)
    ensures SortedParts([], 0, hi) == []
  {
    if hi > 0 { SortedPartsEmpty(hi - 1); }
  }

  lemma {:induction false} SortedPartsPermutation(recs: seq<seq<Byte>>)
    requires Uniform(recs, RECORD_SIZE)
    ensures multiset(SortedParts(recs, 0, PARTITIONS)) == multiset(recs)
  {
    if recs == [] {
      SortedPartsEmpty(PARTITIONS);
    } else {
      var (front, r) := (recs[..|recs| - 1], recs[|recs| - 1]);
      assert recs == front + [r];
      SortedPartsPermutation(front);
      SortedPartsMultiset(front, r, PARTITIONS);
      assert multiset(front + [r]) == multiset(front) + multiset{r};
    }
  }

  /** Partitioning by first byte, sorting each part and concatenating is one global sort. */
  lemma ExternalSortIsSort(recs: seq<seq<Byte>>)
    requires Uniform(recs, RECORD_SIZE)
    ensures SortedParts(recs, 0, PARTITIONS) == Sort(recs)
  {
    SortedPartsPermutation(recs);
    SortedPartsSorted(recs, 0, PARTITIONS);
    SortSorts(recs);
    SortedUnique(SortedParts(recs, 0, PARTITIONS), Sort(recs));
  }
}
