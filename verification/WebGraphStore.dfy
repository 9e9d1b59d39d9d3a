/** Building the index file from the input lines and looking keys up in its bytes. */
module WebGraphStore {
  import opened Common
  import opened Bytes
  import opened WebGraphIndex

  // ------------------------------------------------------------------ file layout

  function Zeros(n: nat): (s: seq<Byte>)
    ensures |s| == n
  {
    seq(n, _ => 0)
  }

  function Header(count: nat, bits: nat): (h: seq<Byte>)
    ensures |h| == HEADER_SIZE
  {
    MAGIC + ToBytes(count, 8) + ToBytes(bits, 4) + Zeros(12)
  }

  /** The fan-out table: entry p counts the records whose key prefix is below p. */
  function Table(recs: seq<seq<Byte>>, bits: nat): (t: seq<seq<Byte>>)
    requires Uniform(recs, RECORD_SIZE) && bits <= 64
    ensures |t| == Pow2(bits) + 1 && Uniform(t, 4)
  {
    seq(Pow2(bits) + 1, p requires 0 <= p => ToBytes(CountBelow(recs, bits, p), 4))
  }

  function Layout(recs: seq<seq<Byte>>, bits: nat): seq<Byte>
    requires Uniform(recs, RECORD_SIZE) && bits <= 64
  {
    Header(|recs|, bits) + (Flatten(Table(recs, bits)) + Flatten(recs))
  }

  /** The file of an entry list: every record packed and sorted, behind a header and a fan-out table. */
  function IndexFile(es: seq<Entry>, bits: nat): seq<Byte>
    requires bits <= 64
  {
    SortUniform(PackAll(es));
    Layout(Sort(PackAll(es)), bits)
  }

  lemma SortUniform(recs: seq<seq<Byte>>)
    requires Uniform(recs, RECORD_SIZE)
    ensures Uniform(Sort(recs), RECORD_SIZE) && |Sort(recs)| == |recs| && Sorted(Sort(recs))
  {
    SortSorts(recs);
    PermutationMembers(recs, Sort(recs));
  }

  // ------------------------------------------------------------------ reading the layout back

  function RecordsAt(bits: nat): nat { HEADER_SIZE + 4 * (Pow2(bits) + 1) }

  /** What WebGraphIndex.__init__ checks before it accepts a file. */
  predicate Openable(file: seq<Byte>) {
    && |file| >= HEADER_SIZE
    && file[..8] == MAGIC
    && |file| == RecordsAt(FromBytes(file[16..20])) + FromBytes(file[8..16]) * RECORD_SIZE
  }

  lemma SliceOfPart<T>(a: seq<T>, b: seq<T>, c: seq<T>, i: nat, j: nat)
    requires i <= j <= |b|
    ensures Slice(a + (b + c), |a| + i, |a| + j) == b[i..j]
  {
    var s := a + (b + c);
    if i < j { assert s[|a| + i..|a| + j] == b[i..j]; }
  }

  lemma HeaderFields(count: nat, bits: nat, rest: seq<Byte>)
    requires count < U32_LIMIT && bits <= 24
    ensures var file := Header(count, bits) + rest;
            file[..8] == MAGIC && FromBytes(file[8..16]) == count && FromBytes(file[16..20]) == bits
  {
    var file := Header(count, bits) + rest;
    assert file[..8] == MAGIC && file[8..16] == ToBytes(count, 8) && file[16..20] == ToBytes(bits, 4);
    U32Span();
    assert U32_LIMIT <= Span(8);
    RoundTrip(count, 8);
    RoundTrip(bits, 4);
  }

  /** Fan-out entry p as struct.unpack_from reads it. */
  function EntryAt(file: seq<Byte>, p: nat): nat { FromBytes(Slice(file, HEADER_SIZE + 4 * p, HEADER_SIZE + 4 * p + 4)) }

  lemma EntryReads(header: seq<Byte>, table: seq<seq<Byte>>, rest: seq<Byte>, p: nat)
    requires |header| == HEADER_SIZE && Uniform(table, 4) && p < |table|
    ensures EntryAt(header + (Flatten(table) + rest), p) == FromBytes(table[p])
  {
    var (t, o) := (Flatten(table), 4 * p);
    assert o + 4 <= |t| && t[o..o + 4] == table[p] by { FlattenAt(table, 4, p); OffsetIsProduct(p, 4); }
    SliceOfPart(header, t, rest, o, o + 4);
  }

  function RecordOf(file: seq<Byte>, at: nat, k: nat): seq<Byte> {
    Slice(file, at + k * RECORD_SIZE, at + (k + 1) * RECORD_SIZE)
  }

  lemma RecordReads(front: seq<Byte>, recs: seq<seq<Byte>>, k: nat)
    requires Uniform(recs, RECORD_SIZE) && k < |recs|
    ensures RecordOf(front + Flatten(recs), |front|, k) == recs[k]
  {
    var (t, o) := (Flatten(recs), k * RECORD_SIZE);
    assert o + RECORD_SIZE <= |t| && t[o..o + RECORD_SIZE] == recs[k] by {
      FlattenAt(recs, RECORD_SIZE, k);
      OffsetIsProduct(k, RECORD_SIZE);
    }
    assert t + [] == t;
    SliceOfPart(front, t, [], o, o + RECORD_SIZE);
  }

  // ------------------------------------------------------------------ build

  function Records(c: Codec, lines: seq<seq<Byte>>): (rs: seq<seq<Byte>>)
    ensures Uniform(rs, RECORD_SIZE)
  {
    PackAll(Accepted(c, lines))
  }

  lemma RecordsStep(c: Codec, lines: seq<seq<Byte>>, i: nat)
    requires i < |lines|
    ensures Records(c, lines[..i + 1]) == Records(c, lines[..i]) +
            match Parse(c, lines[i]) { case Some(e) => [Pack(e)] case None => [] }
  {
    assert lines[..i + 1][..i] == lines[..i];
  }

  lemma BucketStep(recs: seq<seq<Byte>>, r: seq<Byte>, p: nat)
    requires Uniform(recs, RECORD_SIZE) && |r| == RECORD_SIZE
    ensures Bucket(recs + [r], p) == Bucket(recs, p) + if r[0] == p then [r] else []
  {
    assert (recs + [r])[..|recs|] == recs;
  }

  ghost predicate Partitioned(files: seq<seq<Byte>>, recs: seq<seq<Byte>>, from: nat)
    requires Uniform(recs, RECORD_SIZE)
  {
    |files| == PARTITIONS && forall p | from <= p < PARTITIONS :: files[p] == Flatten(Bucket(recs, p))
  }

  lemma AppendToFile(recs: seq<seq<Byte>>, r: seq<Byte>, p: nat)
    requires Uniform(recs, RECORD_SIZE) && |r| == RECORD_SIZE
    ensures Flatten(Bucket(recs + [r], p)) == Flatten(Bucket(recs, p)) + if r[0] == p then r else []
  {
    BucketStep(recs, r, p);
    if r[0] == p {
      FlattenConcat(Bucket(recs, p), [r]);
      assert Flatten([r]) == r + Flatten([]);
    } else {
      assert Bucket(recs, p) + [] == Bucket(recs, p);
    }
  }

  lemma AppendToPartition(files: seq<seq<Byte>>, recs: seq<seq<Byte>>, r: seq<Byte>)
    requires Uniform(recs, RECORD_SIZE) && |r| == RECORD_SIZE && Partitioned(files, recs, 0)
    ensures Partitioned(files[r[0] := files[r[0]] + r], recs + [r], 0)
  {
    forall p | 0 <= p < PARTITIONS
      ensures files[r[0] := files[r[0]] + r][p] == Flatten(Bucket(recs + [r], p))
    {
      AppendToFile(recs, r, p);
    }
  }

  /** Appends every accepted record to the partition file of its first key byte. */
  method Partition(c: Codec, lines: seq<seq<Byte>>) returns (files: array<seq<Byte>>, records: nat, skipped: nat)
    ensures fresh(files) && Partitioned(files[..], Records(c, lines), 0)
    ensures records == |Accepted(c, lines)| && skipped == |lines| - records
  {
    files := new seq<Byte>[PARTITIONS](_ => []);
    records, skipped := 0, 0;
    for i := 0 to |lines|
      invariant fresh(files)
      invariant records == |Records(c, lines[..i])| && skipped == i - records
      invariant Partitioned(files[..], Records(c, lines[..i]), 0)
    {
      RecordsStep(c, lines, i);
      var e := Parse(c, lines[i]);
      if e.None? {
        skipped := skipped + 1;
        assert Records(c, lines[..i + 1]) == Records(c, lines[..i]);
      } else {
        var r := Pack(e.value);
        AppendToPartition(files[..], Records(c, lines[..i]), r);
        ghost var before := files[..];
        files[r[0]] := files[r[0]] + r;
        assert files[..] == before[r[0] := before[r[0]] + r];
        records := records + 1;
      }
    }
    assert lines[..|lines|] == lines;
  }

  /** A partition file cut back into its records. */
  method Cut(buf: seq<Byte>, ghost chunks: seq<seq<Byte>>) returns (recs: seq<seq<Byte>>)
    requires Uniform(chunks, RECORD_SIZE) && buf == Flatten(chunks)
    ensures recs == chunks
  {
    recs := [];
    var i := 0;
    FlattenLength(chunks, RECORD_SIZE);
    OffsetIsProduct(|chunks|, RECORD_SIZE);
    while i < |buf|
      invariant |recs| <= |chunks| && recs == chunks[..|recs|] && i == |recs| * RECORD_SIZE
      decreases |buf| - i
    {
      FlattenAt(chunks, RECORD_SIZE, |recs|);
      OffsetIsProduct(|recs|, RECORD_SIZE);
      recs := recs + [Slice(buf, i, i + RECORD_SIZE)];
      i := i + RECORD_SIZE;
    }
  }

  /** The global order around one partition: earlier partitions, its sorted records, later partitions. */
  lemma AroundPartition(recs: seq<seq<Byte>>, part: nat)
    returns (a: seq<seq<Byte>>, b: seq<seq<Byte>>, z: seq<seq<Byte>>)
    requires Uniform(recs, RECORD_SIZE) && part < PARTITIONS
    ensures a == SortedParts(recs, 0, part) && b == SortedPart(recs, part) && Sort(recs) == a + b + z
    ensures FirstBytesIn(a, 0, part) && FirstBytesIn(b, part, part + 1) && FirstBytesIn(z, part + 1, PARTITIONS)
  {
    a, b, z := SortedParts(recs, 0, part), SortedPart(recs, part), SortedParts(recs, part + 1, PARTITIONS);
    SortedPartsSorted(recs, 0, part);
    SortedPartsSorted(recs, part + 1, PARTITIONS);
    SortedBucket(recs, part, part + 1);
    assert Sort(recs) == a + b + z by {
      ExternalSortIsSort(recs);
      SortedPartsSplit(recs, 0, part, part + 1);
      SortedPartsSplit(recs, 0, part + 1, PARTITIONS);
      assert SortedParts(recs, 0, part + 1) == SortedParts(recs, 0, part) + SortedPart(recs, part);
    }
  }

  /** On which side of a prefix a record of another partition lies. */
  lemma OtherPartition(r: seq<Byte>, bits: nat, p: nat)
    requires |r| == RECORD_SIZE && PARTITION_BITS <= bits <= 64
    ensures r[0] as int < PartOf(p, bits) ==> Prefix(r, bits) < p
    ensures r[0] as int > PartOf(p, bits) ==> Prefix(r, bits) > p
  {
    PartOfRecord(r, bits);
    if Prefix(r, bits) >= p {
      DivMonotone(p, Prefix(r, bits), Pow2(bits - PARTITION_BITS));
    } else {
      DivMonotone(Prefix(r, bits), p, Pow2(bits - PARTITION_BITS));
    }
  }

  /** The fan-out entry of a prefix: all earlier partitions plus the bisection point in its own. */
  lemma FanOutEntry(recs: seq<seq<Byte>>, bits: nat, part: nat, p: nat, k: nat)
    requires Uniform(recs, RECORD_SIZE) && Uniform(Sort(recs), RECORD_SIZE) && PARTITION_BITS <= bits <= 64
    requires part < PARTITIONS && p < Pow2(bits) && PartOf(p, bits) == part && k <= |SortedPart(recs, part)|
    requires forall i | 0 <= i < |SortedPart(recs, part)| :: i < k <==> Less(SortedPart(recs, part)[i], Probe(p, bits))
    ensures CountBelow(Sort(recs), bits, p) == |SortedParts(recs, 0, part)| + k
  {
    var a, b, z := AroundPartition(recs, part);
    var S := Sort(recs);
    forall i | 0 <= i < |S| ensures i < |a| + k <==> Prefix(S[i], bits) < p {
      OtherPartition(S[i], bits, p);
      if i < |a| {
        assert S[i] == a[i];
      } else if i < |a| + |b| {
        assert S[i] == b[i - |a|];
        ProbeMeaning(S[i], bits, p);
      } else {
        assert S[i] == z[i - |a| - |b|];
      }
    }
    CountAtPartitionPoint(S, bits, p, |a| + k);
  }

  ghost predicate Counted(fanout: seq<nat>, recs: seq<seq<Byte>>, bits: nat, upTo: nat)
    requires Uniform(recs, RECORD_SIZE) && bits <= 64
  {
    upTo <= |fanout| && forall p | 0 <= p < upTo :: fanout[p] == CountBelow(recs, bits, p)
  }

  lemma CountedStep(fanout: seq<nat>, recs: seq<seq<Byte>>, bits: nat, p: nat, rank: nat)
    requires Uniform(recs, RECORD_SIZE) && bits <= 64 && p < |fanout|
    requires Counted(fanout, recs, bits, p) && rank == CountBelow(recs, bits, p)
    ensures Counted(fanout[p := rank], recs, bits, p + 1)
  {
  }

  /** The inner loop over one partition's prefixes, `first` up to `first + sub`. */
  method FillFanOut(fanout: array<nat>, sorted: seq<seq<Byte>>, written: nat, part: nat, first: nat, sub: nat, bits: nat,
                    ghost recs: seq<seq<Byte>>)
    requires PARTITION_BITS <= bits <= 24 && part < PARTITIONS
    requires sub == Pow2(bits - PARTITION_BITS) && first == part * sub && first + sub <= fanout.Length
    requires Uniform(recs, RECORD_SIZE) && Uniform(Sort(recs), RECORD_SIZE)
    requires sorted == SortedPart(recs, part) && Sorted(sorted) && written == |SortedParts(recs, 0, part)|
    requires Counted(fanout[..], Sort(recs), bits, first)
    modifies fanout
    ensures Counted(fanout[..], Sort(recs), bits, first + sub)
  {
    for s := 0 to sub
      invariant Counted(fanout[..], Sort(recs), bits, first + s)
    {
      var prefix := first + s;
      var k := BisectLeft(sorted, Probe(prefix, bits));
      var rank: nat := written + k;
      PartOfPrefix(bits, part, s, sub, first);
      FanOutEntry(recs, bits, part, prefix, k);
      CountedStep(fanout[..], Sort(recs), bits, prefix, rank);
      ghost var before := fanout[..];
      fanout[prefix] := rank;
      assert fanout[..] == before[prefix := rank];
    }
  }

  /** Reads, deletes and sorts one partition file. */
  method TakeSorted(files: array<seq<Byte>>, part: nat, ghost recs: seq<seq<Byte>>) returns (sorted: seq<seq<Byte>>)
    requires Uniform(recs, RECORD_SIZE) && part < PARTITIONS && Partitioned(files[..], recs, part)
    modifies files
    ensures Partitioned(files[..], recs, part + 1)
    ensures sorted == SortedPart(recs, part) && Sorted(sorted)
  {
    assert files[part] == files[..][part];
    var cut := Cut(files[part], Bucket(recs, part));
    ghost var before := files[..];
    files[part] := [];
    assert files[..] == before[part := []];
    sorted := Sort(cut);
    SortedBucket(recs, part, part + 1);
  }

  /** Sorts the partitions one at a time into the output and fills the fan-out table; None when a u32 overflows. */
  method WriteSorted(files: array<seq<Byte>>, records: nat, bits: nat, ghost recs: seq<seq<Byte>>)
    returns (out: Option<seq<Byte>>)
    requires PARTITION_BITS <= bits <= 24 && Uniform(recs, RECORD_SIZE) && records == |recs|
    requires Partitioned(files[..], recs, 0)
    modifies files
    ensures Uniform(Sort(recs), RECORD_SIZE)
    ensures out == if |recs| < U32_LIMIT then Some(Layout(Sort(recs), bits)) else None
  {
    var fanout := new nat[Pow2(bits) + 1](_ => 0);
    var sub := Pow2(bits - PARTITION_BITS);
    var written: nat, first: nat := 0, 0;
    var header := Header(records, bits) + Zeros(4 * fanout.Length);
    var body := [];
    SortUniform(recs);
    for part := 0 to PARTITIONS
      invariant Partitioned(files[..], recs, part)
      invariant written == |SortedParts(recs, 0, part)| && body == Flatten(SortedParts(recs, 0, part))
      invariant first == part * sub && Counted(fanout[..], Sort(recs), bits, first)
    {
      var sorted := TakeSorted(files, part, recs);
      assert first + sub <= fanout.Length && (part + 1) * sub == first + sub by { PartOfPrefix(bits, part, 0, sub, first); }
      FillFanOut(fanout, sorted, written, part, first, sub, bits, recs);
      FlattenConcat(SortedParts(recs, 0, part), sorted);
      body := body + Flatten(sorted);
      written := written + |sorted|;
      first := first + sub;
    }
    AllPartitions(bits, sub);
    ExternalSortIsSort(recs);
    AllBelow(Sort(recs), bits);
    CountedStep(fanout[..], Sort(recs), bits, first, written);
    ghost var before := fanout[..];
    fanout[fanout.Length - 1] := written;
    assert fanout[..] == before[first := written];
    out := Seal(header, body, fanout, Sort(recs), bits);
  }

  lemma AllPartitions(bits: nat, sub: nat)
    requires PARTITION_BITS <= bits && sub == Pow2(bits - PARTITION_BITS)
    ensures PARTITIONS * sub == Pow2(bits)
  {
    Pow2Add(8, bits - PARTITION_BITS);
    assert Pow2(8) == PARTITIONS;
  }

  /** Packs the finished fan-out table over its placeholder behind the header. */
  method Seal(header: seq<Byte>, body: seq<Byte>, fanout: array<nat>, ghost recs: seq<seq<Byte>>, bits: nat)
    returns (out: Option<seq<Byte>>)
    requires bits <= 24 && Uniform(recs, RECORD_SIZE) && fanout.Length == Pow2(bits) + 1
    requires Counted(fanout[..], recs, bits, fanout.Length) && fanout[fanout.Length - 1] == |recs|
    requires header == Header(|recs|, bits) + Zeros(4 * fanout.Length) && body == Flatten(recs)
    ensures out == if |recs| < U32_LIMIT then Some(Layout(recs, bits)) else None
  {
    assert forall p | 0 <= p < fanout.Length :: fanout[p] == fanout[..][p];
    if exists p | 0 <= p < fanout.Length :: fanout[p] >= U32_LIMIT {
      return None;
    }
    var table := seq(fanout.Length, p requires 0 <= p < fanout.Length reads fanout => ToBytes(fanout[p], 4));
    assert table == Table(recs, bits);
    var (file, packed) := (header + body, Flatten(table));
    assert |packed| == 4 * fanout.Length by { FlattenLength(table, 4); OffsetIsProduct(fanout.Length, 4); }
    out := Some(file[..HEADER_SIZE] + (packed + file[HEADER_SIZE + |packed|..]));
    Overwrite(Header(|recs|, bits), Zeros(4 * fanout.Length), body, packed);
  }

  lemma Overwrite<T>(a: seq<T>, gap: seq<T>, b: seq<T>, fill: seq<T>)
    requires |gap| == |fill|
    ensures var s := (a + gap) + b; s[..|a|] + (fill + s[|a| + |fill|..]) == a + (fill + b)
  {
  }

  lemma AllBelow(recs: seq<seq<Byte>>, bits: nat)
    requires Uniform(recs, RECORD_SIZE) && bits <= 64
    ensures CountBelow(recs, bits, Pow2(bits)) == |recs|
  {
    forall i | 0 <= i < |recs| ensures Prefix(recs[i], bits) < Pow2(bits) {
      Pow64(bits);
      FromBytesBound(recs[i][..8]);
      DivBound(FromBytes(recs[i][..8]), Pow2(64 - bits), Pow2(bits));
    }
    CountAtPartitionPoint(recs, bits, Pow2(bits), |recs|);
  }

  /** build_index: None stands for the raised errors (fan-out bits out of range, more than 2^32 - 1 records). */
  method Build(c: Codec, lines: seq<seq<Byte>>, bits: nat) returns (file: Option<seq<Byte>>, skipped: nat)
    ensures file.Some? <==> PARTITION_BITS <= bits <= 24 && |Accepted(c, lines)| < U32_LIMIT
    ensures file.Some? ==> file.value == IndexFile(Accepted(c, lines), bits) && Indexes(file.value, Accepted(c, lines))
    ensures file.Some? ==> skipped == |lines| - |Accepted(c, lines)|
  {
    if !(PARTITION_BITS <= bits <= 24) {
      return None, 0;
    }
    var files, records;
    files, records, skipped := Partition(c, lines);
    file := WriteSorted(files, records, bits, Records(c, lines));
    if file.Some? {
      SortUniform(Records(c, lines));
      IndexStores(Accepted(c, lines), bits);
    }
  }

  // ------------------------------------------------------------------ lookup

  class Index {
    const mm: seq<Byte>
    const count: nat
    const fanoutBits: nat
    const recordsAt: nat

    /** The fields read from an accepted header. */
    ghost predicate Valid() {
      && Openable(mm) && count == FromBytes(mm[8..16]) && fanoutBits == FromBytes(mm[16..20])
      && recordsAt == RecordsAt(fanoutBits)
    }

    constructor (file: seq<Byte>)
      requires Openable(file)
      ensures Valid() && mm == file
    {
      mm, count, fanoutBits := file, FromBytes(file[8..16]), FromBytes(file[16..20]);
      recordsAt := RecordsAt(FromBytes(file[16..20]));
    }

    /**
     * The binary search between the key's two fan-out entries. None: the shift by a negative count raised, which takes
     * a fan-out of more than 64 bits.
     */
    method Get(key: Key) returns (r: Option<Option<(nat, nat, nat)>>)
      requires Valid()
      ensures r.None? <==> FromBytes(mm[16..20]) > 64
      ensures r.Some? ==> r.value == LookUp(mm, key)
    {
      if fanoutBits > 64 { return None; }
      var prefix := Prefix(key, fanoutBits);
      assert HEADER_SIZE + 4 * prefix + 8 <= |mm| by { PrefixBound(key, fanoutBits); }
      var lo := FirstNotBelow(key, EntryAt(mm, prefix), EntryAt(mm, prefix + 1));
      r := Some(AnswerFrom(mm, recordsAt, count, lo, key));
    }

    /** Between two fan-out entries, the first record whose key is not below `key`. */
    method FirstNotBelow(key: Key, from: nat, to: nat) returns (lo: nat)
      ensures lo == Bisect(Below(mm, recordsAt, key), from, to)
    {
      var hi: nat := to;
      lo := from;
      while lo < hi
        invariant Bisect(Below(mm, recordsAt, key), lo, hi) == Bisect(Below(mm, recordsAt, key), from, to)
        decreases hi - lo
      {
        var mid: nat := (lo + hi) / 2;
        if Below(mm, recordsAt, key)(mid) {
          lo := mid + 1;
        } else {
          hi := mid;
        }
      }
    }
  }

  /** The key bytes of record i. */
  function KeyAt(file: seq<Byte>, at: nat, i: nat): seq<Byte> {
    Slice(file, at + i * RECORD_SIZE, at + i * RECORD_SIZE + 8)
  }

  function Below(file: seq<Byte>, at: nat, key: Key): nat -> bool { (i: nat) => Less(KeyAt(file, at, i), key) }

  function Bisect(below: nat -> bool, lo: nat, hi: nat): nat
    decreases hi - lo
  {
    if lo >= hi then lo
    else
      var mid := (lo + hi) / 2;
      if below(mid) then Bisect(below, mid + 1, hi) else Bisect(below, lo, mid)
  }

  /** On a monotone predicate the bisection ends at its first false index. */
  lemma {:induction false} BisectSplits(below: nat -> bool, lo: nat, hi: nat)
    requires lo <= hi && forall i, j :: lo <= i <= j < hi && below(j) ==> below(i)
    ensures lo <= Bisect(below, lo, hi) <= hi
    ensures forall i | lo <= i < hi :: below(i) <==> i < Bisect(below, lo, hi)
    decreases hi - lo
  {
    if lo < hi {
      var mid := (lo + hi) / 2;
      if below(mid) { BisectSplits(below, mid + 1, hi); } else { BisectSplits(below, lo, mid); }
    }
  }

  function AnswerFrom(file: seq<Byte>, at: nat, count: nat, lo: nat, key: Key): Option<(nat, nat, nat)>
    requires at + count * RECORD_SIZE <= |file|
  {
    if lo < count && KeyAt(file, at, lo) == key then
      Scale(lo + 1, count, RECORD_SIZE);
      var off := at + lo * RECORD_SIZE;
      var (_, rank, pr, hosts) := Unpack(file[off..off + RECORD_SIZE]);
      Some((rank, pr, hosts))
    else None
  }

  function LookUp(file: seq<Byte>, key: Key): Option<(nat, nat, nat)>
    requires Openable(file) && FromBytes(file[16..20]) <= 64
  {
    var prefix := Prefix(key, FromBytes(file[16..20]));
    var at := RecordsAt(FromBytes(file[16..20]));
    var lo := Bisect(Below(file, at, key), EntryAt(file, prefix), EntryAt(file, prefix + 1));
    AnswerFrom(file, at, FromBytes(file[8..16]), lo, key)
  }

  lemma PrefixBound(key: Key, bits: nat)
    requires bits <= 64
    ensures Prefix(key, bits) < Pow2(bits)
  {
    assert key[..8] == key;
    Pow64(bits);
    FromBytesBound(key);
    DivBound(FromBytes(key), Pow2(64 - bits), Pow2(bits));
  }

  /** The binary search's invariant: everything before lo is below the key, nothing from hi on is. */
  ghost predicate Searching(S: seq<seq<Byte>>, key: Key, lo: nat, hi: nat) {
    && Uniform(S, RECORD_SIZE) && Sorted(S) && lo <= hi <= |S|
    && forall i | 0 <= i < |S| :: (i < lo ==> Less(S[i][..8], key)) && (i >= hi ==> !Less(S[i][..8], key))
  }

  lemma KeyAgainstRange(r: seq<Byte>, bits: nat, key: Key)
    requires |r| == RECORD_SIZE && bits <= 64
    ensures Prefix(r, bits) < Prefix(key, bits) ==> Less(r[..8], key)
    ensures Prefix(r, bits) > Prefix(key, bits) ==> !Less(r[..8], key)
  {
    LessIsNumeric(r[..8], key);
    assert key[..8] == key;
    PrefixMonotone(r, key, bits);
    PrefixMonotone(key, r, bits);
  }

  /** Records counted below a key's prefix are below the key; records beyond its prefix are not. */
  lemma PrefixRange(S: seq<seq<Byte>>, bits: nat, key: Key, prefix: nat)
    requires Uniform(S, RECORD_SIZE) && Sorted(S) && bits <= 64 && prefix == Prefix(key, bits)
    ensures Searching(S, key, CountBelow(S, bits, prefix), CountBelow(S, bits, prefix + 1))
  {
    var (lo, hi) := (CountBelow(S, bits, prefix), CountBelow(S, bits, prefix + 1));
    forall i | 0 <= i < |S|
      ensures (i < lo ==> Less(S[i][..8], key)) && (i >= hi ==> !Less(S[i][..8], key))
    {
      CountIsPartitionPoint(S, bits, prefix, i);
      CountIsPartitionPoint(S, bits, prefix + 1, i);
      KeyAgainstRange(S[i], bits, key);
    }
    CountMonotone(S, bits, prefix);
  }

  /** What a file holds for a sorted record list, read through its own header. */
  ghost predicate Stores(file: seq<Byte>, S: seq<seq<Byte>>) {
    && Uniform(S, RECORD_SIZE) && Sorted(S) && Openable(file) && FromBytes(file[8..16]) == |S|
    && var bits := FromBytes(file[16..20]);
    && bits <= 24
    && (forall p | 0 <= p <= Pow2(bits) :: EntryAt(file, p) == CountBelow(S, bits, p))
    && (forall k | 0 <= k < |S| :: RecordOf(file, RecordsAt(bits), k) == S[k])
  }

  /** S holds the packed entries of es, in some order. */
  ghost predicate Lists(S: seq<seq<Byte>>, es: seq<Entry>) { multiset(S) == multiset(PackAll(es)) }

  /** The file holds the entries of es, sorted, with correct header and fan-out table. */
  ghost predicate Indexes(file: seq<Byte>, es: seq<Entry>) {
    exists S :: Stores(file, S) && Lists(S, es)
  }

  lemma IndexStores(es: seq<Entry>, bits: nat)
    requires bits <= 24 && |es| < U32_LIMIT
    ensures Indexes(IndexFile(es, bits), es)
  {
    var S := Sort(PackAll(es));
    SortSorts(PackAll(es));
    SortUniform(PackAll(es));
    LayoutStores(S, bits);
    assert Lists(S, es);
  }

  lemma LayoutLengths(S: seq<seq<Byte>>, bits: nat)
    requires Uniform(S, RECORD_SIZE) && bits <= 64
    ensures |Header(|S|, bits) + Flatten(Table(S, bits))| == RecordsAt(bits)
    ensures |Layout(S, bits)| == RecordsAt(bits) + |S| * RECORD_SIZE
  {
    FlattenLength(Table(S, bits), 4);
    OffsetIsProduct(Pow2(bits) + 1, 4);
    FlattenLength(S, RECORD_SIZE);
    OffsetIsProduct(|S|, RECORD_SIZE);
  }

  lemma LayoutHeader(S: seq<seq<Byte>>, bits: nat)
    requires Uniform(S, RECORD_SIZE) && bits <= 24 && |S| < U32_LIMIT
    ensures var file := Layout(S, bits);
            Openable(file) && FromBytes(file[8..16]) == |S| && FromBytes(file[16..20]) == bits
  {
    LayoutLengths(S, bits);
    HeaderFields(|S|, bits, Flatten(Table(S, bits)) + Flatten(S));
  }

  lemma LayoutEntry(S: seq<seq<Byte>>, bits: nat, p: nat)
    requires Uniform(S, RECORD_SIZE) && bits <= 64 && |S| < U32_LIMIT && p <= Pow2(bits)
    ensures EntryAt(Layout(S, bits), p) == CountBelow(S, bits, p)
  {
    EntryReads(Header(|S|, bits), Table(S, bits), Flatten(S), p);
    U32Span();
    RoundTrip(CountBelow(S, bits, p), 4);
  }

  lemma LayoutRecord(S: seq<seq<Byte>>, bits: nat, k: nat)
    requires Uniform(S, RECORD_SIZE) && bits <= 64 && k < |S|
    ensures RecordOf(Layout(S, bits), RecordsAt(bits), k) == S[k]
  {
    LayoutLengths(S, bits);
    ConcatAssociative(Header(|S|, bits), Flatten(Table(S, bits)), Flatten(S));
    RecordReads(Header(|S|, bits) + Flatten(Table(S, bits)), S, k);
  }

  /** Every field of the written layout reads back: header, fan-out table, records. */
  lemma LayoutStores(S: seq<seq<Byte>>, bits: nat)
    requires Uniform(S, RECORD_SIZE) && Sorted(S) && bits <= 24 && |S| < U32_LIMIT
    ensures Stores(Layout(S, bits), S)
  {
    LayoutHeader(S, bits);
    forall p | 0 <= p <= Pow2(bits) ensures EntryAt(Layout(S, bits), p) == CountBelow(S, bits, p) {
      LayoutEntry(S, bits, p);
    }
    forall k | 0 <= k < |S| ensures RecordOf(Layout(S, bits), RecordsAt(bits), k) == S[k] {
      LayoutRecord(S, bits, k);
    }
  }

  /** The fan-out entries around a key's prefix bracket its records. */
  lemma SearchRange(file: seq<Byte>, S: seq<seq<Byte>>, bits: nat, key: Key)
    requires Stores(file, S) && bits == FromBytes(file[16..20])
    ensures Searching(S, key, EntryAt(file, Prefix(key, bits)), EntryAt(file, Prefix(key, bits) + 1))
  {
    PrefixBound(key, bits);
    PrefixRange(S, bits, key, Prefix(key, bits));
  }

  lemma RecordKey(file: seq<Byte>, S: seq<seq<Byte>>, at: nat, k: nat)
    requires Stores(file, S) && at == RecordsAt(FromBytes(file[16..20])) && k < |S|
    ensures var off := at + k * RECORD_SIZE;
            && off + RECORD_SIZE <= |file| && file[off..off + RECORD_SIZE] == S[k] && KeyAt(file, at, k) == S[k][..8]
  {
    var off := at + k * RECORD_SIZE;
    assert RecordOf(file, at, k) == S[k];
    assert KeyAt(file, at, k) == file[off..off + RECORD_SIZE][..8];
  }

  lemma KeyMonotone(S: seq<seq<Byte>>, key: Key, i: nat, j: nat)
    requires Uniform(S, RECORD_SIZE) && Sorted(S) && i <= j < |S|
    ensures Less(S[j][..8], key) ==> Less(S[i][..8], key)
  {
    LessIsNumeric(S[i][..8], key);
    LessIsNumeric(S[j][..8], key);
    if i < j { SortedByKey(S[i], S[j]); }
  }

  /** The first record not below the key holds the scan's answer, or there is none. */
  lemma AnswerAt(S: seq<seq<Byte>>, es: seq<Entry>, key: Key, lo: nat)
    requires Searching(S, key, lo, lo) && Lists(S, es)
    ensures match Scan(es, key)
            case None => lo < |S| ==> S[lo][..8] != key
            case Some(v) => lo < |S| && S[lo][..8] == key && Unpack(S[lo]) == (key, v.rank, v.prRank, v.nHosts)
  {
    ScanIsLeast(es, key);
    if lo < |S| && S[lo][..8] == key {
      var e := Origin(S, es, lo);
      PackRoundTrip(e);
      var v := Scan(es, key).value;
      var j := FirstAtOrBefore(S, es, key, lo, v);
      PackOrder(Entry(key, v), e);
      LessTotal(key, key);
      if j == lo { LessTotal(S[lo], S[j]); }
    } else if Scan(es, key).Some? {
      var v := Scan(es, key).value;
      var j := FirstAtOrBefore(S, es, key, lo, v);
      if lo < j { SortedByKey(S[lo], S[j]); }
      LessIsNumeric(S[lo][..8], key);
    }
  }

  /** A record with the key sits at or after the search's final position. */
  lemma FirstAtOrBefore(S: seq<seq<Byte>>, es: seq<Entry>, key: Key, lo: nat, v: Ranks) returns (j: nat)
    requires Searching(S, key, lo, lo) && Lists(S, es) && Entry(key, v) in es
    ensures lo <= j < |S| && S[j] == Pack(Entry(key, v)) && S[j][..8] == key
  {
    var i :| 0 <= i < |es| && es[i] == Entry(key, v);
    assert PackAll(es)[i] in multiset(PackAll(es));
    assert PackAll(es)[i] in multiset(S);
    j :| 0 <= j < |S| && S[j] == PackAll(es)[i];
    LessTotal(key, key);
    assert S[j] == Pack(es[i]) && Pack(es[i])[..8] == key;
  }

  lemma Origin(S: seq<seq<Byte>>, es: seq<Entry>, k: nat) returns (e: Entry)
    requires Lists(S, es) && k < |S|
    ensures e in es && S[k] == Pack(e)
  {
    assert S[k] in multiset(S);
    assert S[k] in multiset(PackAll(es));
    var i :| 0 <= i < |es| && PackAll(es)[i] == S[k];
    e := es[i];
  }

  /** The bisection between two bracketing positions ends at the first record that is not below the key. */
  lemma BisectFinds(file: seq<Byte>, S: seq<seq<Byte>>, at: nat, key: Key, lo: nat, hi: nat)
    requires Stores(file, S) && at == RecordsAt(FromBytes(file[16..20])) && Searching(S, key, lo, hi)
    ensures var k := Bisect(Below(file, at, key), lo, hi); Searching(S, key, k, k)
  {
    var below := Below(file, at, key);
    forall i | 0 <= i < |S| ensures below(i) == Less(S[i][..8], key) {
      RecordKey(file, S, at, i);
    }
    forall i, j | lo <= i <= j < hi && below(j) ensures below(i) {
      KeyMonotone(S, key, i, j);
    }
    BisectSplits(below, lo, hi);
  }

  lemma AnswerInFile(file: seq<Byte>, S: seq<seq<Byte>>, es: seq<Entry>, at: nat, key: Key, lo: nat)
    requires Stores(file, S) && at == RecordsAt(FromBytes(file[16..20])) && Lists(S, es) && Searching(S, key, lo, lo)
    ensures at + |S| * RECORD_SIZE <= |file|
    ensures AnswerFrom(file, at, |S|, lo, key) == Answer(es, key)
  {
    AnswerAt(S, es, key, lo);
    if lo < |S| { RecordKey(file, S, at, lo); }
  }

  /** The reference answer: what a linear scan of the entries returns. */
  function Answer(es: seq<Entry>, key: Key): Option<(nat, nat, nat)> {
    match Scan(es, key) case None => None case Some(v) => Some((v.rank, v.prRank, v.nHosts))
  }

  /** A lookup in an index file is a linear scan of the entries it was built from. */
  lemma LookUpIsScan(file: seq<Byte>, es: seq<Entry>, key: Key)
    requires Indexes(file, es)
    ensures Openable(file) && FromBytes(file[16..20]) <= 64
    ensures LookUp(file, key) == Answer(es, key)
  {
    var S :| Stores(file, S) && Lists(S, es);
    var bits := FromBytes(file[16..20]);
    var (at, lo, hi) := (RecordsAt(bits), EntryAt(file, Prefix(key, bits)), EntryAt(file, Prefix(key, bits) + 1));
    SearchRange(file, S, bits, key);
    BisectFinds(file, S, at, key, lo, hi);
    AnswerInFile(file, S, es, at, key, Bisect(Below(file, at, key), lo, hi));
  }

  /** Building an index and asking it for a host's ranks. None: the build or the open raised. */
  method BuildAndLookUp(c: Codec, lines: seq<seq<Byte>>, bits: nat, query: seq<Byte>)
    returns (r: Option<Option<(nat, nat, nat)>>)
    ensures r.Some? <==> PARTITION_BITS <= bits <= 24 && |Accepted(c, lines)| < U32_LIMIT
    ensures r.Some? ==> r.value == Answer(Accepted(c, lines), c.hostKey(query))
  {
    var file, skipped := Build(c, lines, bits);
    if file.None? {
      return None;
    }
    LookUpIsScan(file.value, Accepted(c, lines), c.hostKey(query));
    var index := new Index(file.value);
    r := index.Get(c.hostKey(query));
  }
}
