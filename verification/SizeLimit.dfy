/** The per-result byte budget: which fields are trimmed, how far, and what the budget guarantees. */
module SizeLimit {
  import opened Common
  import opened Bytes
  import opened Utf8

  /** A branding record: the logo image, and the bytes of everything else it serializes to. */
  datatype Brand = NullBrand | Brand(other: nat, image: Option<Text>)

  /** Absent properties are None; branding_error is only its serialized size. */
  datatype Content = Content(markdown: Option<Text>, html: Option<Text>, text: Option<Text>,
                             links: Option<seq<Text>>, branding: Option<Brand>, brandingError: Option<nat>)

  datatype Field = Html | PlainText | Markdown

  /** The order in which the budget gives fields up. */
  const FIELDS := [Html, PlainText, Markdown]

  const MAX_TRIMMED_LINKS := 1000
  const SLACK := 64

  function Get(c: Content, f: Field): Option<Text> {
    match f case Html => c.html case PlainText => c.text case Markdown => c.markdown
  }

  function Put(c: Content, f: Field, t: Text): Content {
    match f case Html => c.(html := Some(t)) case PlainText => c.(text := Some(t)) case Markdown => c.(markdown := Some(t))
  }

  // ------------------------------------------------------------------ Buffer.byteLength(JSON.stringify(c))

  function StringSize(t: Text): nat { EscapedSize(t) + 2 }

  function Joined(links: seq<Text>): nat { if links == [] then 0 else StringSize(links[0]) + 1 + Joined(links[1..]) }

  function LinksSize(links: seq<Text>): nat { if links == [] then 2 else Joined(links) + 1 }

  function BrandSize(b: Brand): nat {
    match b
    case NullBrand => 4
    case Brand(other, image) => other + if image.Some? then StringSize(image.value) else 4
  }

  /** An entry and its comma: `"key":value,` with keyBytes for the quoted key and the colon. */
  function Entry(keyBytes: nat, value: Option<nat>): nat { if value.Some? then keyBytes + value.value + 1 else 0 }

  function TextEntry(keyBytes: nat, t: Option<Text>): nat { Entry(keyBytes, if t.Some? then Some(StringSize(t.value)) else None) }

  function Entries(c: Content): nat {
    TextEntry(11, c.markdown) + TextEntry(7, c.html) + TextEntry(7, c.text)
    + Entry(8, if c.links.Some? then Some(LinksSize(c.links.value)) else None)
    + Entry(11, if c.branding.Some? then Some(BrandSize(c.branding.value)) else None)
    + Entry(17, c.brandingError)
  }

  /** Two braces, and no comma after the last entry. */
  function Size(c: Content): nat { if Entries(c) == 0 then 2 else Entries(c) + 1 }

  // ------------------------------------------------------------------ trimming one field

  /** The text without the replacement characters at its end. */
  function Trailed(t: Text): (r: Text) {
    if t != [] && t[|t| - 1] == REPLACEMENT then Trailed(t[..|t| - 1]) else t
  }

  /** Bytes of the value that may stay when the whole is `over` bytes too large. */
  function Keep(val: Text, over: int): nat { Max(0, Utf8.Size(val) - over - SLACK) }

  function Shortened(val: Text, over: int): Text {
    Trailed(Decode(Slice(Encode(val), 0, Keep(val, over))))
  }

  function Trimmed(c: Content, f: Field, maxBytes: int): Content {
    var over := Size(c) - maxBytes;
    var val := Get(c, f);
    if over <= 0 || val.None? || val.value == [] then c else Put(c, f, Shortened(val.value, over))
  }

  lemma {:induction false} TrailedIsPrefix(t: Text, source: Text, n: nat)
    requires n <= |source| && (t == source[..n] || t == source[..n] + [REPLACEMENT])
    ensures exists k: nat :: k <= n && Trailed(t) == source[..k]
    decreases |t|
  {
    if t != [] && t[|t| - 1] == REPLACEMENT {
      if t == source[..n] {
        assert t[..|t| - 1] == source[..n - 1];
        TrailedIsPrefix(t[..|t| - 1], source, n - 1);
      } else {
        assert t[..|t| - 1] == source[..n];
        TrailedIsPrefix(t[..|t| - 1], source, n);
      }
    } else {
      assert t == source[..n];
    }
  }

  /** A shortened text is a prefix, and never more than the bytes it was allowed. */
  lemma ShortenedIsPrefix(val: Text, over: int)
    requires over > 0
    ensures exists k: nat :: k <= Fitting(val, Keep(val, over)) && Shortened(val, over) == val[..k]
    ensures Utf8.Size(Shortened(val, over)) <= Keep(val, over)
  {
    var room := Keep(val, over);
    var n := Fitting(val, room);
    EncodeSize(val);
    DecodeCut(val, room);
    FittingIsLongest(val, room);
    assert Slice(Encode(val), 0, room) == Encode(val)[..room];
    TrailedIsPrefix(Decode(Encode(val)[..room]), val, n);
    var k: nat :| k <= n && Shortened(val, over) == val[..k];
    SizeSplits(val[..n], k);
    assert val[..n][..k] == val[..k];
  }

  /** It is as long a prefix as fits into the value's bytes less the surplus and 64, without U+FFFD at its end. */
  lemma ShortenedExactly(val: Text, over: int)
    requires over > 0
    ensures Shortened(val, over) == Trailed(val[..Fitting(val, Max(0, Utf8.Size(val) - over - 64))])
  {
    var room := Keep(val, over);
    EncodeSize(val);
    DecodeCut(val, room);
    assert Slice(Encode(val), 0, room) == Encode(val)[..room];
    TrailedCut(val, room);
  }

  lemma TrailedCut(val: Text, room: nat)
    ensures Trailed(AfterCut(val, room)) == Trailed(val[..Fitting(val, room)])
  {
    var kept := val[..Fitting(val, room)];
    TrailedMore(kept);
    assert kept + [] == kept;
  }

  lemma TrailedMore(t: Text)
    ensures Trailed(t + [REPLACEMENT]) == Trailed(t)
  {
    assert (t + [REPLACEMENT])[..|t|] == t;
  }

  /** Only U+FFFD is dropped, and all of it. */
  lemma {:induction false} TrailedMeans(t: Text)
    ensures Trailed(t) <= t && forall i | |Trailed(t)| <= i < |t| :: t[i] == 0xFFFD
    ensures Trailed(t) != [] ==> Trailed(t)[|Trailed(t)| - 1] != 0xFFFD
  {
    if t != [] && t[|t| - 1] == REPLACEMENT { TrailedMeans(t[..|t| - 1]); }
  }

  lemma SizeOfPut(c: Content, f: Field, t: Text)
    requires Get(c, f).Some?
    ensures Size(Put(c, f, t)) == Size(c) - EscapedSize(Get(c, f).value) + EscapedSize(t)
  {
  }

  predicate Emptied(t: Option<Text>) { t.None? || t.value == [] }

  ghost predicate PrefixOf(t: Option<Text>, original: Option<Text>) {
    t == original || (t.Some? && original.Some? && t.value <= original.value)
  }

  /** Trimming a field reaches the budget unless the field is used up. */
  lemma TrimmedReaches(c: Content, f: Field, maxBytes: int)
    ensures var d := Trimmed(c, f, maxBytes);
            && (Size(d) <= maxBytes || Emptied(Get(d, f)))
            && PrefixOf(Get(d, f), Get(c, f))
            && (Size(c) <= maxBytes ==> d == c)
  {
    var (over, val) := (Size(c) - maxBytes, Get(c, f));
    if over > 0 && val.Some? && val.value != [] {
      ShortenedIsPrefix(val.value, over);
      var t := Shortened(val.value, over);
      var k: nat :| k <= |val.value| && t == val.value[..k];
      CutSaves(val.value, k);
      SizeOfPut(c, f, t);
      if t != [] {
        assert Utf8.Size(t) > 0;
        assert Utf8.Size(t) <= Utf8.Size(val.value) - over - SLACK;
      }
    }
  }

  // ------------------------------------------------------------------ the whole pass

  function FewerLinks(c: Content): Content {
    if c.links.Some? && |c.links.value| > MAX_TRIMMED_LINKS then c.(links := Some(c.links.value[..MAX_TRIMMED_LINKS])) else c
  }

  predicate HasImage(c: Content) {
    c.branding.Some? && c.branding.value.Brand? && c.branding.value.image.Some? && c.branding.value.image.value != []
  }

  function WithoutImage(c: Content): Content {
    if HasImage(c) then c.(branding := Some(c.branding.value.(image := None))) else c
  }

  function Prepared(c: Content, maxBytes: int): Content {
    var d := FewerLinks(c);
    if Size(d) > maxBytes then WithoutImage(d) else d
  }

  /** The first n fields trimmed in turn. */
  function TrimmedAll(c: Content, n: nat, maxBytes: int): Content
    requires n <= |FIELDS|
  {
    if n == 0 then c else Trimmed(TrimmedAll(c, n - 1, maxBytes), FIELDS[n - 1], maxBytes)
  }

  function Limited(c: Content, maxBytes: int): Content {
    if Size(c) <= maxBytes then c
    else
      var d := TrimmedAll(Prepared(c, maxBytes), |FIELDS|, maxBytes);
      if Size(d) > maxBytes then d.(links := Some([])) else d
  }

  lemma {:induction false} SettledStays(c: Content, i: nat, n: nat, maxBytes: int)
    requires i <= n <= |FIELDS| && Size(TrimmedAll(c, i, maxBytes)) <= maxBytes
    ensures TrimmedAll(c, n, maxBytes) == TrimmedAll(c, i, maxBytes)
  {
    if i < n { SettledStays(c, i, n - 1, maxBytes); }
  }

  /** One pass of the loop body, for a content that is `over` bytes too large. */
  method TrimField(content: Content, f: Field, over: int, maxBytes: int) returns (c: Content)
    requires over == Size(content) - maxBytes > 0
    ensures c == Trimmed(content, f, maxBytes)
  {
    var val := Get(content, f);
    if val.None? || val.value == [] { return content; }
    var bytes := Encode(val.value);
    EncodeSize(val.value);
    var keep := Max(0, |bytes| - over - SLACK);
    c := Put(content, f, Trailed(Decode(Slice(bytes, 0, keep))));
  }

  /** The loop over the fields, from html to markdown. */
  method TrimFields(content: Content, maxBytes: int) returns (c: Content)
    ensures c == TrimmedAll(content, |FIELDS|, maxBytes)
  {
    c := content;
    var i := 0;
    while i < |FIELDS|
      invariant i <= |FIELDS| && c == TrimmedAll(content, i, maxBytes)
    {
      var over := Size(c) - maxBytes;
      if over <= 0 {
        SettledStays(content, i, |FIELDS|, maxBytes);
        return;
      }
      c := TrimField(c, FIELDS[i], over, maxBytes);
      i := i + 1;
    }
  }

  method ApplySizeLimit(content: Content, maxBytes: int) returns (c: Content, truncated: bool)
    ensures c == Limited(content, maxBytes)
    ensures truncated <==> Size(content) > maxBytes
  {
    if Size(content) <= maxBytes { return content, false; }
    c := content;
    if c.links.Some? && |c.links.value| > MAX_TRIMMED_LINKS { c := c.(links := Some(c.links.value[..MAX_TRIMMED_LINKS])); }
    assert c == FewerLinks(content);
    if HasImage(c) && Size(c) > maxBytes { c := c.(branding := Some(c.branding.value.(image := None))); }
    assert c == Prepared(content, maxBytes);
    c := TrimFields(c, maxBytes);
    if Size(c) > maxBytes { c := c.(links := Some([])); }
    truncated := true;
  }

  /** What a field is cut to when the whole is `over` bytes too large. */
  function CutText(t: Option<Text>, over: int): Option<Text> {
    if t.None? || over <= 0 then t else Some(Trailed(t.value[..Fitting(t.value, Max(0, Utf8.Size(t.value) - over - 64))]))
  }

  lemma TrimmedIs(c: Content, f: Field, maxBytes: int)
    ensures Trimmed(c, f, maxBytes) ==
            match f
            case Html => c.(html := CutText(c.html, Size(c) - maxBytes))
            case PlainText => c.(text := CutText(c.text, Size(c) - maxBytes))
            case Markdown => c.(markdown := CutText(c.markdown, Size(c) - maxBytes))
  {
    var (over, val) := (Size(c) - maxBytes, Get(c, f));
    if over > 0 && val.Some? {
      ShortenedExactly(val.value, over);
      assert val.value == [] ==> CutText(val, over) == val;
    }
  }

  /** The contents an oversized one goes through: fewer links, no logo image, less html, less text, less markdown. */
  ghost predicate InSteps(c: Content, l: Content, b: Content, h: Content, t: Content, m: Content, maxBytes: int) {
    && l == (if c.links.Some? && |c.links.value| > 1000 then c.(links := Some(c.links.value[..1000])) else c)
    && b == (if l.branding.Some? && l.branding.value.Brand? && l.branding.value.image.Some? && l.branding.value.image.value != [] && Size(l) > maxBytes
             then l.(branding := Some(Brand(l.branding.value.other, None))) else l)
    && h == b.(html := CutText(b.html, Size(b) - maxBytes))
    && t == h.(text := CutText(h.text, Size(h) - maxBytes))
    && m == t.(markdown := CutText(t.markdown, Size(t) - maxBytes))
  }

  /** The budget gives up exactly this much, in exactly this order, and the links last of all. */
  lemma LimitedInSteps(c: Content, l: Content, b: Content, h: Content, t: Content, m: Content, maxBytes: int)
    requires Size(c) > maxBytes && InSteps(c, l, b, h, t, m, maxBytes)
    ensures Limited(c, maxBytes) == if Size(m) > maxBytes then m.(links := Some([])) else m
  {
    assert b == Prepared(c, maxBytes);
    TrimmedIs(b, Html, maxBytes);
    TrimmedIs(h, PlainText, maxBytes);
    TrimmedIs(t, Markdown, maxBytes);
    assert TrimmedAll(b, 0, maxBytes) == b && TrimmedAll(b, 1, maxBytes) == h && TrimmedAll(b, 2, maxBytes) == t;
    assert TrimmedAll(b, 3, maxBytes) == m;
  }

  // ------------------------------------------------------------------ what the budget guarantees

  /** The least the pass can come down to. */
  function Skeleton(c: Content): Content {
    var blank := (t: Option<Text>) => if t.Some? then Some([]) else None;
    WithoutImage(c).(markdown := blank(c.markdown), html := blank(c.html), text := blank(c.text), links := Some([]))
  }

  /** The three trims: each later field is touched only when the ones before it are used up. */
  lemma ThreeTrims(c: Content, maxBytes: int)
    ensures var d := TrimmedAll(c, 3, maxBytes);
            && PrefixOf(d.html, c.html) && PrefixOf(d.text, c.text) && PrefixOf(d.markdown, c.markdown)
            && d == c.(html := d.html, text := d.text, markdown := d.markdown)
            && (d.text != c.text ==> Emptied(d.html))
            && (d.markdown != c.markdown ==> Emptied(d.html) && Emptied(d.text))
            && (Size(d) > maxBytes ==> Emptied(d.html) && Emptied(d.text) && Emptied(d.markdown))
  {
    var (c1, c2) := (TrimmedAll(c, 1, maxBytes), TrimmedAll(c, 2, maxBytes));
    assert TrimmedAll(c, 0, maxBytes) == c;
    assert c1 == Trimmed(c, Html, maxBytes) && c2 == Trimmed(c1, PlainText, maxBytes);
    assert TrimmedAll(c, 3, maxBytes) == Trimmed(c2, Markdown, maxBytes);
    TrimmedReaches(c, Html, maxBytes);
    TrimmedReaches(c1, PlainText, maxBytes);
    TrimmedReaches(c2, Markdown, maxBytes);
  }

  lemma PreparedForm(c: Content, maxBytes: int)
    ensures var p := Prepared(c, maxBytes);
            && p == c.(links := FewerLinks(c).links, branding := p.branding)
            && (p.branding == c.branding || p.branding == WithoutImage(c).branding)
            && (Size(p) > maxBytes ==> p.branding == WithoutImage(c).branding)
  {
  }

  lemma NothingLeft(c: Content, p: Content, d: Content)
    requires p == c.(links := p.links, branding := WithoutImage(c).branding)
    requires d == p.(html := d.html, text := d.text, markdown := d.markdown)
    requires PrefixOf(d.html, c.html) && PrefixOf(d.text, c.text) && PrefixOf(d.markdown, c.markdown)
    requires Emptied(d.html) && Emptied(d.text) && Emptied(d.markdown)
    ensures d.(links := Some([])) == Skeleton(c)
  {
  }

  /** The result meets the budget or nothing is left to give up: no text, no links, no logo image. */
  lemma MeetsBudget(c: Content, maxBytes: int)
    ensures Size(Limited(c, maxBytes)) <= maxBytes || Limited(c, maxBytes) == Skeleton(c)
  {
    if Size(c) > maxBytes {
      var p := Prepared(c, maxBytes);
      var d := TrimmedAll(p, 3, maxBytes);
      PreparedForm(c, maxBytes);
      ThreeTrims(p, maxBytes);
      if Size(d) > maxBytes {
        if Size(p) <= maxBytes { SettledStays(p, 0, 3, maxBytes); }
        NothingLeft(c, p, d);
      }
    }
  }

  lemma SizeIsBounded(c: Content, maxBytes: int)
    ensures Size(Limited(c, maxBytes)) <= Max(maxBytes, Size(Skeleton(c)))
  {
    MeetsBudget(c, maxBytes);
  }

  /** Texts only lose a suffix; plain text only once html is gone, markdown only once plain text is gone too. */
  lemma TrimOrder(c: Content, maxBytes: int)
    ensures var r := Limited(c, maxBytes);
            && PrefixOf(r.html, c.html) && PrefixOf(r.text, c.text) && PrefixOf(r.markdown, c.markdown)
            && (r.text != c.text ==> Emptied(r.html))
            && (r.markdown != c.markdown ==> Emptied(r.html) && Emptied(r.text))
            && r.brandingError == c.brandingError
            && (r.links == c.links || r.links == Some([]) || r.links == FewerLinks(c).links)
            && (r.branding == c.branding || r.branding == WithoutImage(c).branding)
  {
    if Size(c) > maxBytes {
      var p := Prepared(c, maxBytes);
      PreparedForm(c, maxBytes);
      ThreeTrims(p, maxBytes);
      var d := TrimmedAll(p, 3, maxBytes);
      assert Limited(c, maxBytes) == if Size(d) > maxBytes then d.(links := Some([])) else d;
    }
  }

  // ------------------------------------------------------------------ the last resort

  /** What is left once the surplus links, the logo image and all texts are given up. */
  function Stripped(c: Content): Content { Skeleton(c).(links := FewerLinks(c).links) }

  /** Giving all of that up is not enough, nor was cutting the links to begin with. */
  predicate GivesUpLinks(c: Content, maxBytes: int) {
    Size(c) > maxBytes && Size(FewerLinks(c)) > maxBytes && Size(Stripped(c)) > maxBytes
  }

  /** No prefix of the texts is smaller than none. */
  lemma StrippedIsLeast(c: Content, p: Content, d: Content)
    requires p == c.(links := FewerLinks(c).links, branding := WithoutImage(c).branding)
    requires d == p.(html := d.html, text := d.text, markdown := d.markdown)
    requires PrefixOf(d.html, c.html) && PrefixOf(d.text, c.text) && PrefixOf(d.markdown, c.markdown)
    ensures Size(Stripped(c)) <= Size(d)
  {
  }

  /** An oversized content meets the budget, or it comes down to its skeleton: exactly when the links must go as well. */
  lemma LimitedExactly(c: Content, maxBytes: int)
    requires Size(c) > maxBytes
    ensures var r := Limited(c, maxBytes);
            if GivesUpLinks(c, maxBytes) then r == Skeleton(c) else Size(r) <= maxBytes && r.links == FewerLinks(c).links
  {
    var p := Prepared(c, maxBytes);
    var d := TrimmedAll(p, 3, maxBytes);
    PreparedForm(c, maxBytes);
    ThreeTrims(p, maxBytes);
    if Size(p) <= maxBytes { SettledStays(p, 0, 3, maxBytes); }
    if Size(d) > maxBytes {
      NothingLeft(c, p, d);
      assert d == Stripped(c);
    } else if Size(FewerLinks(c)) > maxBytes {
      StrippedIsLeast(c, p, d);
    }
  }

  /** A content without links comes back with an empty list of them exactly then. */
  lemma EmptyLinksAppear(c: Content, maxBytes: int)
    requires c.links.None?
    ensures Limited(c, maxBytes).links.Some? <==> GivesUpLinks(c, maxBytes)
  {
    if Size(c) > maxBytes { LimitedExactly(c, maxBytes); }
  }

  /** The result is larger than the content exactly when the links go and the skeleton is the larger of the two. */
  lemma LimitGrows(c: Content, maxBytes: int)
    ensures Size(Limited(c, maxBytes)) > Size(c) <==> GivesUpLinks(c, maxBytes) && Size(Skeleton(c)) > Size(c)
  {
    if Size(c) > maxBytes { LimitedExactly(c, maxBytes); }
  }

  function TextBytes(t: Option<Text>): nat { if t.Some? then EscapedSize(t.value) else 0 }

  /** What dropping the logo image saves; one of a single character costs a byte. */
  function ImageBytes(c: Content): int { if HasImage(c) then StringSize(c.branding.value.image.value) - 4 else 0 }

  /** For a content without links that is the case while texts and image make up less than the entry `"links":[],`. */
  lemma SkeletonIsLarger(c: Content)
    requires c.links.None?
    ensures Size(Skeleton(c)) > Size(c) <==> TextBytes(c.html) + TextBytes(c.text) + TextBytes(c.markdown) + ImageBytes(c) < 11
  {
  }

  /** It happens: a branding record over the budget grows. */
  lemma BrandingGrows()
    ensures var c := Content(None, None, None, None, Some(Brand(100, None)), None);
            Limited(c, 50).links == Some([]) && Size(Limited(c, 50)) > Size(c)
  {
    var c := Content(None, None, None, None, Some(Brand(100, None)), None);
    EmptyLinksAppear(c, 50);
    LimitGrows(c, 50);
    LimitedExactly(c, 50);
  }
}
