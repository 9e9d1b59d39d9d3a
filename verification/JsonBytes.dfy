/** The bytes behind the sizes: UTF-8 (section 3 of RFC 3629) character by character, and the JSON text (RFC 8259) of a content. */
module JsonBytes {
  import opened Common
  import opened Bytes
  import opened Utf8
  import SizeLimit

  lemma DivTwice(v: nat)
    ensures v / 64 / 64 == v / 4096
  {
  }

  lemma DivThrice(v: nat)
    ensures v / 64 / 64 / 64 == v / 262144
  {
    DivTwice(v);
    assert v / 4096 / 64 == v / 262144;
  }

  /** The bytes of a character: one, two, three or four of them, its bits six at a time from the end. */
  lemma EncodingIs(c: CodePoint)
    ensures EncodeOne(c) ==
            if c < 128 then [c as int]
            else if c < 2048 then [192 + c / 64, 128 + c % 64]
            else if c < 65536 then [224 + c / 4096, 128 + c / 64 % 64, 128 + c % 64]
            else [240 + c / 262144, 128 + c / 4096 % 64, 128 + c / 64 % 64, 128 + c % 64]
  {
    DivTwice(c);
    DivThrice(c);
  }

  // ------------------------------------------------------------------ JSON strings

  function HexDigit(n: int): Byte
    requires 0 <= n < 16
  {
    if n < 10 then 48 + n else 87 + n
  }

  /** How JSON.stringify writes a character inside a string. */
  function Escaped(c: CodePoint): seq<Byte> {
    if c == 34 then [92, 34]          // \"
    else if c == 92 then [92, 92]     // \\
    else if c == 8 then [92, 98]      // \b
    else if c == 9 then [92, 116]     // \t
    else if c == 10 then [92, 110]    // \n
    else if c == 12 then [92, 102]    // \f
    else if c == 13 then [92, 114]    // \r
    else if c < 32 then [92, 117, 48, 48, 48 + c / 16, HexDigit(c % 16)]  // \u00xx
    else EncodeOne(c)
  }

  function AllEscaped(t: Text): seq<Byte> { if t == [] then [] else Escaped(t[0]) + AllEscaped(t[1..]) }

  function JsonString(t: Text): seq<Byte> { [34] + AllEscaped(t) + [34] }

  lemma {:induction false} EscapedBytes(t: Text)
    ensures |AllEscaped(t)| == EscapedSize(t)
  {
    if t != [] { EscapedBytes(t[1..]); }
  }

  lemma StringBytes(t: Text)
    ensures |JsonString(t)| == SizeLimit.StringSize(t)
  {
    EscapedBytes(t);
  }

  // ------------------------------------------------------------------ JSON objects

  /** The code points of a key written in plain letters. */
  function Letters(s: string): (t: Text)
    ensures |t| == |s|
  {
    seq(|s|, i requires 0 <= i < |s| => if s[i] < 128 as char then s[i] as int else 63)
  }

  lemma {:induction false} LettersSize(t: Text)
    requires forall i | 0 <= i < |t| :: 32 <= t[i] < 128 && t[i] != 34 && t[i] != 92
    ensures EscapedSize(t) == |t|
  {
    if t != [] { LettersSize(t[1..]); }
  }

  /** The members with a comma between any two; a property that is absent has no bytes. */
  function Members(entries: seq<seq<Byte>>): seq<Byte> {
    if entries == [] then []
    else
      var rest := Members(entries[1..]);
      if entries[0] == [] then rest else if rest == [] then entries[0] else entries[0] + ([44] + rest)
  }

  function Object(entries: seq<seq<Byte>>): seq<Byte> { [123] + Members(entries) + [125] }

  function Member(key: string, value: Option<seq<Byte>>): seq<Byte> {
    if value.None? then [] else JsonString(Letters(key)) + ([58] + value.value)
  }

  function Elements(links: seq<Text>): seq<Byte>
    requires links != []
  {
    if |links| == 1 then JsonString(links[0]) else JsonString(links[0]) + ([44] + Elements(links[1..]))
  }

  function JsonList(links: seq<Text>): seq<Byte> { if links == [] then [91, 93] else [91] + Elements(links) + [93] }

  lemma {:induction false} ElementsBytes(links: seq<Text>)
    requires links != []
    ensures |Elements(links)| + 1 == SizeLimit.Joined(links)
  {
    StringBytes(links[0]);
    if |links| > 1 { ElementsBytes(links[1..]); } else { assert links[1..] == []; }
  }

  lemma ListBytes(links: seq<Text>)
    ensures |JsonList(links)| == SizeLimit.LinksSize(links)
  {
    if links != [] { ElementsBytes(links); }
  }

  /** A branding record: what comes before and after its logo image, and the image or null. */
  function JsonBrand(b: SizeLimit.Brand, front: seq<Byte>, back: seq<Byte>): seq<Byte> {
    match b
    case NullBrand => [110, 117, 108, 108]
    case Brand(_, image) => front + (if image.Some? then JsonString(image.value) else [110, 117, 108, 108]) + back
  }

  predicate BrandAround(b: Option<SizeLimit.Brand>, front: seq<Byte>, back: seq<Byte>) {
    b.Some? && b.value.Brand? ==> |front| + |back| == b.value.other
  }

  function JsonText(t: Option<Text>): Option<seq<Byte>> { if t.Some? then Some(JsonString(t.value)) else None }

  function LinksMember(links: Option<seq<Text>>): seq<Byte> { Member("links", if links.Some? then Some(JsonList(links.value)) else None) }

  function BrandMember(b: Option<SizeLimit.Brand>, front: seq<Byte>, back: seq<Byte>): seq<Byte> {
    Member("branding", if b.Some? then Some(JsonBrand(b.value, front, back)) else None)
  }

  function ErrorMember(size: Option<nat>, error: seq<Byte>): seq<Byte> { Member("branding_error", if size.Some? then Some(error) else None) }

  /** The JSON text of a content; front, back and error are the parts it does not describe. */
  function Json(c: SizeLimit.Content, front: seq<Byte>, back: seq<Byte>, error: seq<Byte>): seq<Byte> {
    Object([Member("markdown", JsonText(c.markdown)), Member("html", JsonText(c.html)), Member("text", JsonText(c.text)),
            LinksMember(c.links), BrandMember(c.branding, front, back), ErrorMember(c.brandingError, error)])
  }

  /** What the members take with a comma behind each. */
  function WithCommas(entries: seq<seq<Byte>>): nat {
    if entries == [] then 0 else Comma(entries[0]) + WithCommas(entries[1..])
  }

  function Comma(entry: seq<Byte>): nat { if entry == [] then 0 else |entry| + 1 }

  lemma {:induction false} MembersBytes(entries: seq<seq<Byte>>)
    ensures |Members(entries)| == Max(0, WithCommas(entries) - 1)
    ensures Members(entries) == [] <==> WithCommas(entries) == 0
  {
    if entries != [] { MembersBytes(entries[1..]); }
  }

  lemma MemberBytes(key: string, value: Option<seq<Byte>>)
    requires forall i | 0 <= i < |key| :: 32 as char <= key[i] < 128 as char && key[i] != 34 as char && key[i] != 92 as char
    ensures |Member(key, value)| == if value.Some? then |key| + 3 + |value.value| else 0
  {
    LettersSize(Letters(key));
    StringBytes(Letters(key));
  }

  lemma TextMember(key: string, t: Option<Text>)
    requires forall i | 0 <= i < |key| :: 32 as char <= key[i] < 128 as char && key[i] != 34 as char && key[i] != 92 as char
    ensures Comma(Member(key, JsonText(t))) == SizeLimit.TextEntry(|key| + 3, t)
  {
    MemberBytes(key, JsonText(t));
    if t.Some? { StringBytes(t.value); }
  }

  lemma LinksMemberBytes(links: Option<seq<Text>>)
    ensures Comma(LinksMember(links)) == SizeLimit.Entry(8, if links.Some? then Some(SizeLimit.LinksSize(links.value)) else None)
  {
    MemberBytes("links", if links.Some? then Some(JsonList(links.value)) else None);
    if links.Some? { ListBytes(links.value); }
  }

  lemma BrandMemberBytes(b: Option<SizeLimit.Brand>, front: seq<Byte>, back: seq<Byte>)
    requires BrandAround(b, front, back)
    ensures Comma(BrandMember(b, front, back)) == SizeLimit.Entry(11, if b.Some? then Some(SizeLimit.BrandSize(b.value)) else None)
  {
    MemberBytes("branding", if b.Some? then Some(JsonBrand(b.value, front, back)) else None);
    if b.Some? && b.value.Brand? && b.value.image.Some? { StringBytes(b.value.image.value); }
  }

  lemma ErrorMemberBytes(size: Option<nat>, error: seq<Byte>)
    requires size.Some? ==> |error| == size.value
    ensures Comma(ErrorMember(size, error)) == SizeLimit.Entry(17, size)
  {
    MemberBytes("branding_error", if size.Some? then Some(error) else None);
  }

  lemma OneMore(entry: seq<Byte>, rest: seq<seq<Byte>>)
    ensures WithCommas([entry] + rest) == Comma(entry) + WithCommas(rest)
  {
    assert ([entry] + rest)[1..] == rest;
  }

  lemma SixEntries(a: seq<Byte>, b: seq<Byte>, c: seq<Byte>, d: seq<Byte>, e: seq<Byte>, f: seq<Byte>)
    ensures WithCommas([a, b, c, d, e, f]) == Comma(a) + Comma(b) + Comma(c) + Comma(d) + Comma(e) + Comma(f)
  {
    OneMore(f, []);
    OneMore(e, [f]);
    OneMore(d, [e, f]);
    OneMore(c, [d, e, f]);
    OneMore(b, [c, d, e, f]);
    OneMore(a, [b, c, d, e, f]);
    assert [f] + [] == [f] && [e] + [f] == [e, f] && [d] + [e, f] == [d, e, f] && [c] + [d, e, f] == [c, d, e, f];
    assert [b] + [c, d, e, f] == [b, c, d, e, f] && [a] + [b, c, d, e, f] == [a, b, c, d, e, f];
  }

  lemma ObjectBytes(a: seq<Byte>, b: seq<Byte>, c: seq<Byte>, d: seq<Byte>, e: seq<Byte>, f: seq<Byte>)
    ensures var n := Comma(a) + Comma(b) + Comma(c) + Comma(d) + Comma(e) + Comma(f);
            |Object([a, b, c, d, e, f])| == if n == 0 then 2 else n + 1
  {
    SixEntries(a, b, c, d, e, f);
    MembersBytes([a, b, c, d, e, f]);
  }

  /** The size the budget is held against is the length of the JSON text. */
  lemma SizeIsJson(c: SizeLimit.Content, front: seq<Byte>, back: seq<Byte>, error: seq<Byte>)
    requires BrandAround(c.branding, front, back) && (c.brandingError.Some? ==> |error| == c.brandingError.value)
    ensures |Json(c, front, back, error)| == SizeLimit.Size(c)
  {
    TextMember("markdown", c.markdown);
    TextMember("html", c.html);
    TextMember("text", c.text);
    LinksMemberBytes(c.links);
    BrandMemberBytes(c.branding, front, back);
    ErrorMemberBytes(c.brandingError, error);
    ObjectBytes(Member("markdown", JsonText(c.markdown)), Member("html", JsonText(c.html)), Member("text", JsonText(c.text)),
                LinksMember(c.links), BrandMember(c.branding, front, back), ErrorMember(c.brandingError, error));
  }
}
