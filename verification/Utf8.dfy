/** UTF-8 (section 3 of RFC 3629) and JSON string (section 7 of RFC 8259) sizes of well-formed text. */
module Utf8 {
  import opened Bytes

  /** A Unicode scalar value: well-formed text has no lone surrogates. */
  type CodePoint = c: int | 0 <= c < 0xD800 || 0xE000 <= c < 0x110000

  type Text = seq<CodePoint>

  predicate Scalar(c: int) { 0 <= c < 0xD800 || 0xE000 <= c < 0x110000 }

  const REPLACEMENT: CodePoint := 0xFFFD

  function Width(c: CodePoint): (n: nat)
    ensures 1 <= n <= 4
  {
    if c < 0x80 then 1 else if c < 0x800 then 2 else if c < 0x10000 then 3 else 4
  }

  function EncodeOne(c: CodePoint): (s: seq<Byte>)
    ensures |s| == Width(c)
  {
    var v: int := c;
    if v < 0x80 then [AsByte(v)]
    else if v < 0x800 then [AsByte(0xC0 + v / 64), Continuation(v)]
    else if v < 0x10000 then [AsByte(0xE0 + v / 64 / 64), Continuation(v / 64), Continuation(v)]
    else [AsByte(0xF0 + v / 64 / 64 / 64), Continuation(v / 64 / 64), Continuation(v / 64), Continuation(v)]
  }

  function AsByte(v: int): Byte
    requires 0 <= v < 256
  {
    v
  }

  function Continuation(v: int): Byte { AsByte(0x80 + v % 64) }

  function Encode(t: Text): seq<Byte> { if t == [] then [] else EncodeOne(t[0]) + Encode(t[1..]) }

  /** How many bytes a lead byte announces; 0 for a byte that cannot lead. */
  function Announced(lead: Byte): (n: nat)
    ensures n <= 4
  {
    if lead < 0x80 then 1
    else if lead < 0xC2 then 0
    else if lead < 0xE0 then 2
    else if lead < 0xF0 then 3
    else if lead < 0xF5 then 4
    else 0
  }

  function Payload(s: seq<Byte>): int
    requires 1 <= |s| <= 4
  {
    if |s| == 1 then s[0]
    else if |s| == 2 then Low(s[0], 0xC0, s[1])
    else if |s| == 3 then Low(Low(s[0], 0xE0, s[1]), 0, s[2])
    else Low(Low(Low(s[0], 0xF0, s[1]), 0, s[2]), 0, s[3])
  }

  /** Appends the six bits of a continuation byte. */
  function Low(high: int, mark: int, b: int): int { (high - mark) * 64 + (b - 0x80) }

  /** Buffer.toString("utf8"): bytes that form no character, and a sequence cut short by the end, become U+FFFD. */
  function Decode(s: seq<Byte>): Text {
    if s == [] then []
    else
      var n := Announced(s[0]);
      if n > |s| then [REPLACEMENT]
      else if n > 0 && Scalar(Payload(s[..n])) then [Payload(s[..n])] + Decode(s[n..])
      else [REPLACEMENT] + Decode(s[1..])
  }

  lemma LeadAnnounces(c: CodePoint)
    ensures Announced(EncodeOne(c)[0]) == Width(c)
  {
  }

  lemma LowOfContinuation(v: int, mark: int)
    ensures Low(v / 64 + mark, mark, Continuation(v)) == v
  {
  }

  lemma PayloadOfOne(c: CodePoint)
    ensures Payload(EncodeOne(c)) == c
  {
    var v: int := c;
    LowOfContinuation(v, if v < 0x800 then 0xC0 else 0);
    LowOfContinuation(v / 64, if v < 0x10000 then 0xE0 else 0);
    LowOfContinuation(v / 64 / 64, 0xF0);
  }

  lemma DecodeStep(c: CodePoint, rest: seq<Byte>)
    ensures Decode(EncodeOne(c) + rest) == [c] + Decode(rest)
  {
    var (one, s) := (EncodeOne(c), EncodeOne(c) + rest);
    LeadAnnounces(c);
    PayloadOfOne(c);
    assert s[..|one|] == one && s[|one|..] == rest && s[0] == one[0];
  }

  /** How many leading characters fit in `room` bytes. */
  function Fitting(t: Text, room: nat): (n: nat)
    ensures n <= |t|
  {
    if t == [] || Width(t[0]) > room then 0 else 1 + Fitting(t[1..], room - Width(t[0]))
  }

  function Size(t: Text): (n: nat) { if t == [] then 0 else Width(t[0]) + Size(t[1..]) }

  lemma {:induction false} EncodeSize(t: Text)
    ensures |Encode(t)| == Size(t)
  {
    if t != [] { EncodeSize(t[1..]); }
  }

  lemma {:induction false} SizeSplits(t: Text, n: nat)
    requires n <= |t|
    ensures Size(t) == Size(t[..n]) + Size(t[n..])
  {
    if n == 0 {
      assert t[..0] == [] && t[0..] == t;
    } else {
      SizeSplits(t[1..], n - 1);
      assert t[..n][1..] == t[1..][..n - 1] && t[1..][n - 1..] == t[n..];
    }
  }

  /** Fitting is the longest prefix within the room. */
  lemma {:induction false} FittingIsLongest(t: Text, room: nat)
    ensures var n := Fitting(t, room);
            Size(t[..n]) <= room && (n < |t| ==> Size(t[..n]) + Width(t[n]) > room)
  {
    if t != [] && Width(t[0]) <= room {
      FittingIsLongest(t[1..], room - Width(t[0]));
      var n := Fitting(t, room);
      assert t[..n][1..] == t[1..][..n - 1];
    }
  }

  lemma {:induction false} DecodeEncode(t: Text)
    ensures Decode(Encode(t)) == t
  {
    if t != [] {
      DecodeEncode(t[1..]);
      DecodeStep(t[0], Encode(t[1..]));
    }
  }

  lemma DecodeCutChar(c: CodePoint, room: nat)
    requires 0 < room < Width(c)
    ensures Decode(EncodeOne(c)[..room]) == [REPLACEMENT]
  {
    LeadAnnounces(c);
  }

  /** The text a cut after `room` bytes decodes to: what fits, and U+FFFD for a character cut in two. */
  function AfterCut(t: Text, room: nat): Text {
    var n := Fitting(t, room);
    t[..n] + if Size(t[..n]) < room then [REPLACEMENT] else []
  }

  lemma AfterCutStep(t: Text, room: nat)
    requires t != [] && Width(t[0]) <= room
    ensures AfterCut(t, room) == [t[0]] + AfterCut(t[1..], room - Width(t[0]))
  {
    var n := Fitting(t, room);
    assert t[..n][1..] == t[1..][..n - 1];
    assert t[..n] == [t[0]] + t[1..][..n - 1];
  }

  lemma DecodeCutStep(t: Text, room: nat)
    requires t != [] && Width(t[0]) <= room <= |Encode(t)|
    ensures Decode(Encode(t)[..room]) == [t[0]] + Decode(Encode(t[1..])[..room - Width(t[0])])
  {
    var (one, rest) := (EncodeOne(t[0]), Encode(t[1..]));
    assert Encode(t) == one + rest;
    assert (one + rest)[..room] == one + rest[..room - |one|];
    DecodeStep(t[0], rest[..room - |one|]);
  }

  /** Cutting the bytes anywhere and decoding. */
  lemma {:induction false} DecodeCut(t: Text, room: nat)
    requires room <= |Encode(t)|
    ensures Decode(Encode(t)[..room]) == AfterCut(t, room)
  {
    if t == [] || room == 0 {
      assert Encode(t)[..0] == [];
    } else if Width(t[0]) <= room {
      DecodeCut(t[1..], room - Width(t[0]));
      DecodeCutStep(t, room);
      AfterCutStep(t, room);
    } else {
      assert Encode(t)[..room] == EncodeOne(t[0])[..room];
      DecodeCutChar(t[0], room);
    }
  }

  /** Bytes JSON.stringify writes for one character, without the quotes around the string. */
  function EscapedWidth(c: CodePoint): nat {
    if c == 0x22 || c == 0x5C || 0x08 <= c <= 0x0A || c == 0x0C || c == 0x0D then 2
    else if c < 0x20 then 6
    else Width(c)
  }

  function EscapedSize(t: Text): (n: nat) { if t == [] then 0 else EscapedWidth(t[0]) + EscapedSize(t[1..]) }

  lemma {:induction false} EscapedSplits(t: Text, n: nat)
    requires n <= |t|
    ensures EscapedSize(t) == EscapedSize(t[..n]) + EscapedSize(t[n..])
  {
    if n == 0 {
      assert t[..0] == [] && t[0..] == t;
    } else {
      EscapedSplits(t[1..], n - 1);
      assert t[..n][1..] == t[1..][..n - 1] && t[1..][n - 1..] == t[n..];
    }
  }

  /** Escaping never makes text smaller. */
  lemma {:induction false} EscapedDominates(t: Text)
    ensures EscapedSize(t) >= Size(t)
  {
    if t != [] { EscapedDominates(t[1..]); }
  }

  /** Cutting a suffix saves at least its plain bytes in the escaped form. */
  lemma CutSaves(t: Text, n: nat)
    requires n <= |t|
    ensures EscapedSize(t) - EscapedSize(t[..n]) >= Size(t) - Size(t[..n])
  {
    SizeSplits(t, n);
    EscapedSplits(t, n);
    EscapedDominates(t[n..]);
  }
}
