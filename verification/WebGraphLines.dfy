/**
 * What the lines of a ranks file mean, column by column, and what the index built from them answers. Nothing here is
 * said through the parser: a line is its columns with a tab between any two.
 */
module WebGraphLines {
  import opened Common
  import opened Bytes
  import opened WebGraphIndex
  import opened WebGraphStore

  /** The columns of a line; there is always one, and none holds a tab. */
  predicate Columns(cols: seq<seq<Byte>>) { cols != [] && forall i | 0 <= i < |cols| :: 9 !in cols[i] }

  ghost predicate IsTable(table: seq<seq<seq<Byte>>>) { forall i | 0 <= i < |table| :: Columns(table[i]) }

  function Line(cols: seq<seq<Byte>>): seq<Byte>
    requires cols != []
  {
    if |cols| == 1 then cols[0] else cols[0] + ([9] + Line(cols[1..]))
  }

  lemma SplitNext(b: Byte, line: seq<Byte>)
    requires b != 9
    ensures Split([b] + line) == [[b] + Split(line)[0]] + Split(line)[1..]
  {
    assert ([b] + line)[1..] == line;
  }

  lemma {:induction false} SplitLast(cell: seq<Byte>)
    requires 9 !in cell
    ensures Split(cell) == [cell]
  {
    if cell != [] {
      SplitLast(cell[1..]);
      SplitNext(cell[0], cell[1..]);
      assert [cell[0]] + cell[1..] == cell;
    }
  }

  lemma {:induction false} SplitCell(cell: seq<Byte>, rest: seq<Byte>)
    requires 9 !in cell
    ensures Split(cell + ([9] + rest)) == [cell] + Split(rest)
  {
    var line := cell + ([9] + rest);
    if cell == [] {
      assert line[0] == 9 && line[1..] == rest;
    } else {
      SplitCell(cell[1..], rest);
      SplitNext(cell[0], cell[1..] + ([9] + rest));
      assert [cell[0]] + cell[1..] == cell;
      assert line == [cell[0]] + (cell[1..] + ([9] + rest));
    }
  }

  /** Splitting a line at its tabs gives back its columns. */
  lemma {:induction false} SplitOfLine(cols: seq<seq<Byte>>)
    requires Columns(cols)
    ensures Split(Line(cols)) == cols
  {
    if |cols| == 1 {
      SplitLast(cols[0]);
    } else {
      SplitOfLine(cols[1..]);
      SplitCell(cols[0], Line(cols[1..]));
    }
  }

  /** Every line is the line of its columns. */
  lemma {:induction false} LineOfSplit(line: seq<Byte>)
    ensures Columns(Split(line)) && Line(Split(line)) == line
  {
    if line != [] {
      LineOfSplit(line[1..]);
      var rest := Split(line[1..]);
      if line[0] == 9 {
        assert Split(line)[1..] == rest;
      } else {
        LineGrows(line[0], rest);
      }
    }
  }

  lemma Regrouped<T>(a: seq<T>, b: seq<T>, c: seq<T>)
    ensures a + (b + c) == (a + b) + c
  {
  }

  lemma LineGrows(b: Byte, rest: seq<seq<Byte>>)
    requires Columns(rest) && b != 9
    ensures var cols := [[b] + rest[0]] + rest[1..]; Columns(cols) && Line(cols) == [b] + Line(rest)
  {
    var cols := [[b] + rest[0]] + rest[1..];
    assert cols[1..] == rest[1..];
    if |rest| > 1 { Regrouped([b], rest[0], [9] + Line(rest[1..])); }
  }

  // ------------------------------------------------------------------ what a line says

  predicate IsU32(n: Option<int>) { n.Some? && 0 <= n.value <= 4294967295 }

  /** Neither too short nor a comment, with two ranks that fit 32 bits and, if given, a number of hosts. */
  predicate Readable(c: Codec, cols: seq<seq<Byte>>) {
    && |cols| >= 5 && !(cols[0] != [] && cols[0][0] == 35)
    && IsU32(c.parseInt(cols[0])) && IsU32(c.parseInt(cols[2]))
    && (|cols| > 5 ==> c.parseInt(cols[5]).Some? && c.parseInt(cols[5]).value >= 0)
  }

  /** The line gives this host key these values: rank, PageRank rank, and the hosts up to 32 bits, 0 if not given. */
  predicate Says(c: Codec, cols: seq<seq<Byte>>, key: Key, v: (int, int, int)) {
    && Readable(c, cols) && c.hostKey(cols[4]) == key
    && c.parseInt(cols[0]) == Some(v.0) && c.parseInt(cols[2]) == Some(v.1)
    && v.2 == if |cols| == 5 then 0 else if c.parseInt(cols[5]).value > 4294967295 then 4294967295 else c.parseInt(cols[5]).value
  }

  /** A line is accepted exactly when it is readable, and then with what it says; every other line is skipped. */
  lemma LineMeans(c: Codec, cols: seq<seq<Byte>>)
    requires Columns(cols)
    ensures var e := Parse(c, Line(cols));
            && (e.Some? <==> Readable(c, cols))
            && forall key, v :: Says(c, cols, key, v) <==> e.Some? && e.value.key == key && (e.value.ranks.rank, e.value.ranks.prRank, e.value.ranks.nHosts) == v
  {
    SplitOfLine(cols);
    assert (Line(cols) != [] && Line(cols)[0] == 35) <==> (cols[0] != [] && cols[0][0] == 35);
  }

  function Lines(table: seq<seq<seq<Byte>>>): (lines: seq<seq<Byte>>)
    requires IsTable(table)
    ensures |lines| == |table|
  {
    seq(|table|, i requires 0 <= i < |table| && Columns(table[i]) => Line(table[i]))
  }

  function ReadableRows(c: Codec, table: seq<seq<seq<Byte>>>): nat {
    if table == [] then 0 else ReadableRows(c, table[..|table| - 1]) + if Readable(c, table[|table| - 1]) then 1 else 0
  }

  ghost predicate SomeRowSays(c: Codec, table: seq<seq<seq<Byte>>>, key: Key, v: (int, int, int)) {
    exists i :: 0 <= i < |table| && Says(c, table[i], key, v)
  }

  ghost predicate Among(es: seq<Entry>, key: Key, v: (int, int, int)) {
    exists e :: e in es && e.key == key && (e.ranks.rank, e.ranks.prRank, e.ranks.nHosts) == v
  }

  lemma AmongLast(es: seq<Entry>, e: Entry, key: Key, v: (int, int, int))
    ensures Among(es + [e], key, v) <==> Among(es, key, v) || (e.key == key && (e.ranks.rank, e.ranks.prRank, e.ranks.nHosts) == v)
  {
    if Among(es, key, v) {
      var x :| x in es && x.key == key && (x.ranks.rank, x.ranks.prRank, x.ranks.nHosts) == v;
      assert x in es + [e];
    }
    assert e in es + [e];
  }

  lemma SaysLast(c: Codec, table: seq<seq<seq<Byte>>>, key: Key, v: (int, int, int))
    requires table != []
    ensures SomeRowSays(c, table, key, v) <==>
              SomeRowSays(c, table[..|table| - 1], key, v) || Says(c, table[|table| - 1], key, v)
  {
    var front := table[..|table| - 1];
    if SomeRowSays(c, front, key, v) {
      var i :| 0 <= i < |front| && Says(c, front[i], key, v);
      assert Says(c, table[i], key, v);
    }
    if SomeRowSays(c, table, key, v) && !Says(c, table[|table| - 1], key, v) {
      var i :| 0 <= i < |table| && Says(c, table[i], key, v);
      assert Says(c, front[i], key, v);
    }
  }

  lemma AcceptedLast(c: Codec, table: seq<seq<seq<Byte>>>)
    requires table != [] && IsTable(table)
    ensures var n := |table| - 1;
            && Columns(table[n]) && IsTable(table[..n])
            && var e := Parse(c, Line(table[n]));
               Accepted(c, Lines(table)) == Accepted(c, Lines(table[..n])) + if e.Some? then [e.value] else []
  {
    var n := |table| - 1;
    assert Lines(table)[..n] == Lines(table[..n]);
  }

  /** The accepted entries are exactly what the readable lines say, one for each. */
  lemma {:induction false} AcceptedMeans(c: Codec, table: seq<seq<seq<Byte>>>, key: Key, v: (int, int, int))
    requires IsTable(table)
    ensures |Accepted(c, Lines(table))| == ReadableRows(c, table)
    ensures Among(Accepted(c, Lines(table)), key, v) <==> SomeRowSays(c, table, key, v)
  {
    if table != [] {
      var n := |table| - 1;
      AcceptedMeans(c, table[..n], key, v);
      AcceptedLast(c, table);
      LineMeans(c, table[n]);
      SaysLast(c, table, key, v);
      var e := Parse(c, Line(table[n]));
      if e.Some? { AmongLast(Accepted(c, Lines(table[..n])), e.value, key, v); }
    }
  }

  // ------------------------------------------------------------------ the bytes of the file

  lemma FormatHead(S: seq<seq<Byte>>, bits: nat)
    requires Uniform(S, 20) && bits <= 24 && |S| <= 4294967295
    ensures var f := Layout(S, bits);
            && |f| == 36 + 4 * Pow2(bits) + 20 * |S|
            && f[..8] == [84, 69, 87, 71, 73, 48, 48, 49] && FromBytes(f[8..16]) == |S| && FromBytes(f[16..20]) == bits
            && f[20..32] == [0, 0, 0, 0, 0, 0, 0, 0, 0, 0, 0, 0]
  {
    LayoutLengths(S, bits);
    LayoutHeader(S, bits);
    var h := MAGIC + ToBytes(|S|, 8) + ToBytes(bits, 4);
    assert |h| == 20 && Header(|S|, bits)[20..] == Zeros(12);
    assert Layout(S, bits)[20..32] == Zeros(12);
  }

  lemma FormatEntry(S: seq<seq<Byte>>, bits: nat, p: nat)
    requires Uniform(S, 20) && bits <= 24 && |S| <= 4294967295 && p <= Pow2(bits)
    ensures |Layout(S, bits)| == 36 + 4 * Pow2(bits) + 20 * |S|
    ensures FromBytes(Layout(S, bits)[32 + 4 * p..36 + 4 * p]) == CountBelow(S, bits, p)
  {
    FormatHead(S, bits);
    LayoutEntry(S, bits, p);
    assert EntryAt(Layout(S, bits), p) == FromBytes(Layout(S, bits)[32 + 4 * p..36 + 4 * p]);
  }

  lemma SliceIs(f: seq<Byte>, at: nat, k: nat)
    requires at + 20 * k + 20 <= |f|
    ensures RecordOf(f, at, k) == f[at + 20 * k..at + 20 * k + 20]
  {
  }

  lemma FormatRecord(S: seq<seq<Byte>>, bits: nat, k: nat)
    requires Uniform(S, 20) && bits <= 24 && |S| <= 4294967295 && k < |S|
    ensures var at := 36 + 4 * Pow2(bits) + 20 * k; at + 20 <= |Layout(S, bits)| && Layout(S, bits)[at..at + 20] == S[k]
  {
    LayoutLengths(S, bits);
    LayoutRecord(S, bits, k);
    SliceIs(Layout(S, bits), RecordsAt(bits), k);
  }

  /** The file of a list of records, by its byte positions: a header of 32 bytes, the fan-out table, the records. */
  lemma FormatIs(S: seq<seq<Byte>>, bits: nat, p: nat, k: nat)
    requires Uniform(S, 20) && bits <= 24 && |S| <= 4294967295 && p <= Pow2(bits)
    ensures var (f, at) := (Layout(S, bits), 36 + 4 * Pow2(bits) + 20 * k);
            && |f| == 36 + 4 * Pow2(bits) + 20 * |S|
            && f[..8] == [84, 69, 87, 71, 73, 48, 48, 49] && FromBytes(f[8..16]) == |S| && FromBytes(f[16..20]) == bits
            && f[20..32] == [0, 0, 0, 0, 0, 0, 0, 0, 0, 0, 0, 0]
            && FromBytes(f[32 + 4 * p..36 + 4 * p]) == CountBelow(S, bits, p)
            && (k < |S| ==> f[at..at + 20] == S[k])
  {
    FormatHead(S, bits);
    FormatEntry(S, bits, p);
    if k < |S| { FormatRecord(S, bits, k); }
  }

  /** A record by its bytes: the host key, the rank, the PageRank rank and the number of hosts. */
  lemma RecordIs(e: Entry)
    ensures var r := Pack(e);
            && |r| == 20 && r[..8] == e.key
            && FromBytes(r[8..12]) == e.ranks.rank && FromBytes(r[12..16]) == e.ranks.prRank && FromBytes(r[16..]) == e.ranks.nHosts
  {
    PackRoundTrip(e);
    assert Pack(e)[16..] == Pack(e)[16..20];
  }

  // ------------------------------------------------------------------ end to end

  predicate Before(v: (int, int, int), w: (int, int, int)) {
    v.0 < w.0 || (v.0 == w.0 && (v.1 < w.1 || (v.1 == w.1 && v.2 < w.2)))
  }

  /** What an answer for a host must be: the least that any line says of it, and none exactly if no line does. */
  ghost predicate IsAnswer(c: Codec, table: seq<seq<seq<Byte>>>, key: Key, answer: Option<(nat, nat, nat)>) {
    match answer
    case None => forall v :: !SomeRowSays(c, table, key, v)
    case Some(a) => SomeRowSays(c, table, key, a) && forall v | SomeRowSays(c, table, key, v) :: !Before(v, a)
  }

  lemma ScanAnswers(c: Codec, table: seq<seq<seq<Byte>>>, key: Key)
    requires IsTable(table)
    ensures IsAnswer(c, table, key, Answer(Accepted(c, Lines(table)), key))
  {
    var es := Accepted(c, Lines(table));
    ScanIsLeast(es, key);
    forall v ensures Among(es, key, v) <==> SomeRowSays(c, table, key, v) { AcceptedMeans(c, table, key, v); }
    var answer := Answer(es, key);
    if answer.Some? {
      assert Among(es, key, answer.value);
    }
  }

  /**
   * Building an index from the lines of a table and asking it for a host: it raises exactly for fan-out bits out of range
   * or too many readable lines, and else answers with what the lines say of the host.
   */
  method BuildAndAsk(c: Codec, table: seq<seq<seq<Byte>>>, bits: nat, query: seq<Byte>) returns (r: Option<Option<(nat, nat, nat)>>)
    requires IsTable(table)
    ensures r.Some? <==> 8 <= bits <= 24 && ReadableRows(c, table) <= 4294967295
    ensures r.Some? ==> IsAnswer(c, table, c.hostKey(query), r.value)
  {
    AcceptedMeans(c, table, c.hostKey(query), (0, 0, 0));
    r := BuildAndLookUp(c, Lines(table), bits, query);
    ScanAnswers(c, table, c.hostKey(query));
  }

  /** One line of six columns, asked for its host: its first and third column and the capped sixth. */
  method AskOneLine(c: Codec, cols: seq<seq<Byte>>, bits: nat) returns (r: Option<Option<(nat, nat, nat)>>)
    requires Columns(cols) && |cols| == 6 && !(cols[0] != [] && cols[0][0] == 35) && 8 <= bits <= 24
    requires IsU32(c.parseInt(cols[0])) && IsU32(c.parseInt(cols[2])) && c.parseInt(cols[5]).Some? && c.parseInt(cols[5]).value >= 0
    ensures r == Some(Some((c.parseInt(cols[0]).value, c.parseInt(cols[2]).value, Min(c.parseInt(cols[5]).value, 4294967295))))
  {
    var v := (c.parseInt(cols[0]).value, c.parseInt(cols[2]).value, Min(c.parseInt(cols[5]).value, 4294967295));
    assert [cols][..0] == [] && ReadableRows(c, [cols]) == 1;
    assert Says(c, [cols][0], c.hostKey(cols[4]), v);
    r := BuildAndAsk(c, [cols], bits, cols[4]);
    OnlySays(c, [cols], c.hostKey(cols[4]), v, v);
    if r.value.Some? { OnlySays(c, [cols], c.hostKey(cols[4]), v, r.value.value); }
  }

  lemma OnlySays(c: Codec, table: seq<seq<seq<Byte>>>, key: Key, v: (int, int, int), w: (int, int, int))
    requires |table| == 1 && Says(c, table[0], key, v)
    ensures SomeRowSays(c, table, key, w) <==> w == v
  {
    if SomeRowSays(c, table, key, w) {
      var i :| 0 <= i < |table| && Says(c, table[i], key, w);
    }
  }
}
