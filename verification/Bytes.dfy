/** Byte strings as Python compares, packs and slices them. */
module Bytes {
  import opened Common

  type Byte = b: int | 0 <= b < 256

  /** Python's `<` on bytes: lexicographic, a proper prefix is smaller. */
  predicate Less(a: seq<Byte>, b: seq<Byte>) {
    if b == [] then false
    else if a == [] then true
    else a[0] < b[0] || (a[0] == b[0] && Less(a[1..], b[1..]))
  }

  predicate AtMost(a: seq<Byte>, b: seq<Byte>) { !Less(b, a) }

  /** int.from_bytes(s, "big"). */
  function FromBytes(s: seq<Byte>): nat {
    if s == [] then 0 else 256 * FromBytes(s[..|s| - 1]) + s[|s| - 1]
  }

  /** v.to_bytes(n, "big"): the n low-order bytes of v, most significant first. */
  function ToBytes(v: nat, n: nat): (s: seq<Byte>)
    ensures |s| == n
    decreases n
  {
    if n == 0 then [] else ToBytes(v / 256, n - 1) + [v % 256]
  }

  /** Python slicing s[from:to]: bounds beyond the end are clamped. */
  function Slice<T>(s: seq<T>, from: nat, to: nat): seq<T> {
    var hi := Min(to, |s|);
    if from >= hi then [] else s[from..hi]
  }

  /** 256^n, how many numbers fit n bytes. */
  function Span(n: nat): (r: nat)
    ensures r > 0
  {
    if n == 0 then 1 else 256 * Span(n - 1)
  }

  lemma {:induction false} SpanIsPow2(n: nat)
    ensures Span(n) == Pow2(8 * n)
  {
    if n > 0 {
      SpanIsPow2(n - 1);
      Pow2Add(8, 8 * (n - 1));
      assert Pow2(8) == 256;
    }
  }

  lemma {:induction false} FromBytesBound(s: seq<Byte>)
    ensures FromBytes(s) < Span(|s|)
  {
    if s != [] { FromBytesBound(s[..|s| - 1]); }
  }

  lemma {:induction false} RoundTrip(v: nat, n: nat)
    requires v < Span(n)
    ensures FromBytes(ToBytes(v, n)) == v
    decreases n
  {
    if n > 0 {
      RoundTrip(v / 256, n - 1);
      assert ToBytes(v, n)[..n - 1] == ToBytes(v / 256, n - 1);
    }
  }

  lemma AppendDigit(d: nat, m: nat, v: nat, x: Byte)
    requires d * m <= v < (d + 1) * m
    ensures d * (256 * m) <= 256 * v + x < (d + 1) * (256 * m)
  {
    assert d * (256 * m) == 256 * (d * m) && (d + 1) * (256 * m) == 256 * ((d + 1) * m);
  }

  /** The first byte brackets the number. */
  lemma {:induction false} FirstByteBounds(s: seq<Byte>)
    requires s != []
    ensures s[0] * Span(|s| - 1) <= FromBytes(s) < (s[0] as int + 1) * Span(|s| - 1)
  {
    var n := |s| - 1;
    if n == 0 {
      assert s[..0] == [];
    } else {
      FirstByteBounds(s[..n]);
      AppendDigit(s[0], Span(n - 1), FromBytes(s[..n]), s[n]);
    }
  }

  function Quotient(v: nat, m: nat): nat
    requires m > 0
  {
    v / m
  }

  lemma DivBound(v: nat, m: nat, k: nat)
    requires m > 0
    ensures v == v / m * m + v % m && v % m < m
    ensures v / m < k <==> v < k * m
  {
    var q := v / m;
    assert v == q * m + v % m;
    if q < k { assert (q + 1) * m <= k * m; } else { assert q * m >= k * m; }
  }

  lemma {:induction false} LessTotal(a: seq<Byte>, b: seq<Byte>)
    ensures Less(a, b) || Less(b, a) || a == b
    ensures !(Less(a, b) && Less(b, a))
  {
    if a != [] && b != [] && a[0] == b[0] {
      LessTotal(a[1..], b[1..]);
      assert a == [a[0]] + a[1..] && b == [b[0]] + b[1..];
    }
  }

  lemma {:induction false} AtMostTransitive(a: seq<Byte>, b: seq<Byte>, c: seq<Byte>)
    requires AtMost(a, b) && AtMost(b, c)
    ensures AtMost(a, c)
  {
    if a != [] && b != [] && c != [] && a[0] == b[0] == c[0] {
      AtMostTransitive(a[1..], b[1..], c[1..]);
    }
  }

  /** Comparing two concatenations: the first parts decide unless they are equal. */
  lemma {:induction false} LessConcat(a: seq<Byte>, x: seq<Byte>, b: seq<Byte>, y: seq<Byte>)
    requires |a| == |b|
    ensures Less(a + x, b + y) <==> Less(a, b) || (a == b && Less(x, y))
  {
    if a == [] {
      assert a + x == x && b + y == y;
    } else {
      assert (a + x)[1..] == a[1..] + x && (b + y)[1..] == b[1..] + y;
      LessConcat(a[1..], x, b[1..], y);
      assert a == [a[0]] + a[1..] && b == [b[0]] + b[1..];
    }
  }

  /** Equal-length byte strings compare as the numbers they encode. */
  lemma {:induction false} LessIsNumeric(a: seq<Byte>, b: seq<Byte>)
    requires |a| == |b|
    ensures Less(a, b) <==> FromBytes(a) < FromBytes(b)
    ensures a == b <==> FromBytes(a) == FromBytes(b)
  {
    if a != [] {
      var n := |a| - 1;
      LessIsNumeric(a[..n], b[..n]);
      assert a == a[..n] + [a[n]] && b == b[..n] + [b[n]];
      LessConcat(a[..n], [a[n]], b[..n], [b[n]]);
    }
  }

  // ------------------------------------------------------------------ sorting (list.sort on bytes)

  ghost predicate Sorted(s: seq<seq<Byte>>) {
    forall i, j | 0 <= i < j < |s| :: AtMost(s[i], s[j])
  }

  function Insert(x: seq<Byte>, s: seq<seq<Byte>>): seq<seq<Byte>> {
    if s == [] then [x]
    else if Less(s[0], x) then [s[0]] + Insert(x, s[1..])
    else [x] + s
  }

  /** The sorted list; any sorting algorithm returns it (`SortedUnique`). */
  function Sort(s: seq<seq<Byte>>): seq<seq<Byte>> {
    if s == [] then [] else Insert(s[0], Sort(s[1..]))
  }

  lemma {:induction false} InsertSorted(x: seq<Byte>, s: seq<seq<Byte>>)
    requires Sorted(s)
    ensures Sorted(Insert(x, s)) && multiset(Insert(x, s)) == multiset(s) + multiset{x} && |Insert(x, s)| == |s| + 1
  {
    if s == [] {
    } else if Less(s[0], x) {
      InsertSorted(x, s[1..]);
      var r := Insert(x, s[1..]);
      LessTotal(s[0], x);
      assert s == [s[0]] + s[1..];
      forall j | 0 <= j < |r| ensures AtMost(s[0], r[j]) {
        assert r[j] in multiset(r);
        if r[j] != x { assert r[j] in multiset(s[1..]); assert r[j] in s[1..]; }
      }
    } else {
      forall j | 0 <= j < |s| ensures AtMost(x, s[j]) {
        if j > 0 { AtMostTransitive(x, s[0], s[j]); }
      }
    }
  }

  lemma {:induction false} SortSorts(s: seq<seq<Byte>>)
    ensures Sorted(Sort(s)) && multiset(Sort(s)) == multiset(s) && |Sort(s)| == |s|
  {
    if s != [] {
      SortSorts(s[1..]);
      InsertSorted(s[0], Sort(s[1..]));
      assert s == [s[0]] + s[1..];
    }
  }

  lemma PermutationMembers(s: seq<seq<Byte>>, t: seq<seq<Byte>>)
    requires multiset(s) == multiset(t)
    ensures |s| == |t| && forall i | 0 <= i < |t| :: t[i] in s
  {
    assert |multiset(s)| == |multiset(t)|;
    forall i | 0 <= i < |t| ensures t[i] in s { assert t[i] in multiset(t); }
  }

  lemma LeastFirst(a: seq<seq<Byte>>, b: seq<seq<Byte>>)
    requires Sorted(a) && multiset(a) == multiset(b) && a != [] && b != []
    ensures AtMost(a[0], b[0])
  {
    assert b[0] in multiset(a);
    var j :| 0 <= j < |a| && a[j] == b[0];
    LessTotal(a[0], b[0]);
  }

  /** A sorted permutation is unique. */
  lemma {:induction false} SortedUnique(a: seq<seq<Byte>>, b: seq<seq<Byte>>)
    requires Sorted(a) && Sorted(b) && multiset(a) == multiset(b)
    ensures a == b
  {
    assert |multiset(a)| == |a| && |multiset(b)| == |b|;
    if a != [] {
      assert a[0] == b[0] by { LeastFirst(a, b); LeastFirst(b, a); LessTotal(a[0], b[0]); }
      assert multiset(a[1..]) == multiset(b[1..]) by {
        assert a == [a[0]] + a[1..] && b == [b[0]] + b[1..];
        assert multiset(a[1..]) == multiset(a) - multiset{a[0]};
        assert multiset(b[1..]) == multiset(b) - multiset{b[0]};
      }
      SortedUnique(a[1..], b[1..]);
      assert a == [a[0]] + a[1..] && b == [b[0]] + b[1..];
    }
  }

  /** bisect.bisect_left on a sorted list of byte strings. */
  method BisectLeft(recs: seq<seq<Byte>>, probe: seq<Byte>) returns (k: nat)
    requires Sorted(recs)
    ensures k <= |recs|
    ensures forall i | 0 <= i < |recs| :: i < k <==> Less(recs[i], probe)
  {
    var hi := |recs|;
    k := 0;
    while k < hi
      invariant 0 <= k <= hi <= |recs|
      invariant forall i | 0 <= i < k :: Less(recs[i], probe)
      invariant forall i | hi <= i < |recs| :: !Less(recs[i], probe)
    {
      var mid := (k + hi) / 2;
      if Less(recs[mid], probe) {
        forall i | 0 <= i < mid ensures Less(recs[i], probe) {
          if !Less(recs[i], probe) { AtMostTransitive(probe, recs[i], recs[mid]); }
        }
        k := mid + 1;
      } else {
        forall i | mid < i < |recs| ensures !Less(recs[i], probe) {
          AtMostTransitive(probe, recs[mid], recs[i]);
        }
        hi := mid;
      }
    }
  }

  // ------------------------------------------------------------------ fixed-size chunks

  function Flatten(chunks: seq<seq<Byte>>): seq<Byte> {
    if chunks == [] then [] else chunks[0] + Flatten(chunks[1..])
  }

  ghost predicate Uniform(chunks: seq<seq<Byte>>, size: nat) {
    forall i | 0 <= i < |chunks| :: |chunks[i]| == size
  }

  lemma {:induction false} FlattenConcat(a: seq<seq<Byte>>, b: seq<seq<Byte>>)
    ensures Flatten(a + b) == Flatten(a) + Flatten(b)
  {
    if a == [] {
      assert a + b == b;
    } else {
      FlattenConcat(a[1..], b);
      assert (a + b)[1..] == a[1..] + b;
    }
  }

  /** k * size, written as repeated addition. */
  function Offset(k: nat, size: nat): nat { if k == 0 then 0 else size + Offset(k - 1, size) }

  lemma {:induction false} OffsetIsProduct(k: nat, size: nat)
    ensures Offset(k, size) == k * size
  {
    if k > 0 { OffsetIsProduct(k - 1, size); }
  }

  lemma {:induction false} FlattenLength(chunks: seq<seq<Byte>>, size: nat)
    requires Uniform(chunks, size)
    ensures |Flatten(chunks)| == Offset(|chunks|, size)
  {
    if chunks != [] { FlattenLength(chunks[1..], size); }
  }

  /** Chunk k of a flattened table lies at offset k * size. */
  lemma {:induction false} FlattenAt(chunks: seq<seq<Byte>>, size: nat, k: nat)
    requires Uniform(chunks, size) && k < |chunks|
    ensures var o := Offset(k, size); o + size <= |Flatten(chunks)| && Flatten(chunks)[o..o + size] == chunks[k]
  {
    if k > 0 {
      FlattenAt(chunks[1..], size, k - 1);
      var o := Offset(k - 1, size);
      assert Flatten(chunks)[size + o..size + o + size] == Flatten(chunks[1..])[o..o + size];
    }
  }
}
