/** Percent encoding, the canonical query string and the canonical URI (sections 2.1 and 2.3 of RFC 3986),
    against the parsers of query strings and paths. */
module Canonical {
  import opened ByteStrings
  import opened Sorting
  import opened Utf8

  const PERCENT: byte := 37
  const AMPERSAND: byte := 38
  const SLASH: byte := 47
  const EQUALS: byte := 61

  lemma Separators()
    ensures [PERCENT] == Ascii("%") && [AMPERSAND] == Ascii("&") && [SLASH] == Ascii("/") && [EQUALS] == Ascii("=")
  {}

  // ---- percent encoding ----

  /** The unreserved characters: letters, digits, `-`, `.`, `_` and `~`. */
  predicate IsUnreserved(c: byte) {
    48 <= c <= 57 || 65 <= c <= 90 || 97 <= c <= 122 || c == 45 || c == 46 || c == 95 || c == 126
  }

  function UpperHexDigit(d: nat): byte
    requires d < 16
  {
    if d < 10 then (48 + d) as byte else (55 + d) as byte
  }

  function EncodeByte(c: byte): Bytes {
    if IsUnreserved(c) then [c] else [PERCENT, UpperHexDigit(c as nat / 16), UpperHexDigit(c as nat % 16)]
  }

  function Encode(s: Bytes): Bytes {
    if s == [] then [] else EncodeByte(s[0]) + Encode(s[1..])
  }

  function Replace(s: Bytes, c: byte, with: Bytes): Bytes {
    if s == [] then [] else (if s[0] == c then with else [s[0]]) + Replace(s[1..], c, with)
  }

  /** `aws_uri_encode`. */
  function AwsUriEncode(s: Bytes, encodeSlash: bool): Bytes {
    if encodeSlash then Replace(Encode(s), SLASH, Ascii("%2F")) else Encode(s)
  }

  /** Percent decoding as the library does it: a `%` without two hexadecimal digits behind it stays. */
  function Decode(s: Bytes): Bytes {
    if s == [] then []
    else if s[0] == PERCENT && |s| >= 3 && HexValue(s[1]).Some? && HexValue(s[2]).Some? then
      [(16 * HexValue(s[1]).value + HexValue(s[2]).value) as byte] + Decode(s[3..])
    else [s[0]] + Decode(s[1..])
  }

  /** `percent_decode`: the decoded bytes have to be text. */
  function PercentDecode(s: Bytes): Option<Bytes> {
    if IsUtf8(Decode(s)) then Some(Decode(s)) else None
  }

  function DecodeOr(s: Bytes): Bytes {
    match PercentDecode(s)
    case Some(t) => t
    case None => s
  }

  // ---- the alphabets, and what decoding does to text that was not encoded here ----

  /** Section 2.3 of RFC 3986. */
  lemma UnreservedIff(c: byte)
    ensures IsUnreserved(c) <==>
      var x := c as char;
      'A' <= x <= 'Z' || 'a' <= x <= 'z' || '0' <= x <= '9' || x == '-' || x == '.' || x == '_' || x == '~'
  {}

  /** Unreserved characters stay; any other byte becomes `%` and two upper-case digits, the high half first. */
  lemma EncodeByteIs(c: byte)
    ensures IsUnreserved(c) ==> EncodeByte(c) == [c]
    ensures !IsUnreserved(c) ==>
      && |EncodeByte(c)| == 3 && EncodeByte(c)[0] as char == '%'
      && EncodeByte(c)[1] as int == "0123456789ABCDEF"[c as nat / 16] as int
      && EncodeByte(c)[2] as int == "0123456789ABCDEF"[c as nat % 16] as int
  {}

  lemma {:induction false} EncodeAppend(a: Bytes, b: Bytes)
    ensures Encode(a + b) == Encode(a) + Encode(b)
  {
    if a == [] {
      assert a + b == b;
    } else {
      assert (a + b)[1..] == a[1..] + b;
      EncodeAppend(a[1..], b);
      Associative(EncodeByte(a[0]), Encode(a[1..]), Encode(b));
    }
  }

  /** Text without a `%` decodes to itself. */
  lemma {:induction false} DecodePlain(s: Bytes)
    requires PERCENT !in s
    ensures Decode(s) == s
  {
    if s != [] {
      DecodePlain(s[1..]);
      assert s == [s[0]] + s[1..];
    }
  }

  /** Everything before a `%` decodes to itself. */
  lemma {:induction false} DecodeUpTo(a: Bytes, rest: Bytes)
    requires PERCENT !in a
    ensures Decode(a + rest) == a + Decode(rest)
  {
    if a == [] {
      assert a + rest == rest;
    } else {
      assert (a + rest)[1..] == a[1..] + rest;
      DecodeUpTo(a[1..], rest);
      assert a == [a[0]] + a[1..];
    }
  }

  /** `%` and two hexadecimal digits, of either case, stand for a byte. */
  lemma DecodeEscape(h: byte, l: byte, hi: nat, lo: nat, rest: Bytes)
    requires HexValue(h) == Some(hi) && HexValue(l) == Some(lo)
    ensures Decode([PERCENT, h, l] + rest) == [(16 * hi + lo) as byte] + Decode(rest)
  {
    var s := [PERCENT, h, l] + rest;
    assert s[0] == PERCENT && s[1] == h && s[2] == l && s[3..] == rest;
  }

  /** Any other `%` stands for itself. */
  lemma DecodeStray(rest: Bytes)
    requires |rest| < 2 || HexValue(rest[0]).None? || HexValue(rest[1]).None?
    ensures Decode([PERCENT] + rest) == [PERCENT] + Decode(rest)
  {
    var s := [PERCENT] + rest;
    assert s[1..] == rest;
    if |rest| >= 2 { assert s[1] == rest[0] && s[2] == rest[1]; }
  }

  /** What decodes to text is decoded, and all else is refused or left as it is. */
  lemma PercentDecodeIff(s: Bytes)
    ensures PercentDecode(s) == Some(Decode(s)) <==> IsUtf8(Decode(s))
    ensures PercentDecode(s).None? <==> !IsUtf8(Decode(s))
    ensures DecodeOr(s) == if IsUtf8(Decode(s)) then Decode(s) else s
  {}

  /** `%FF` is no text: it is refused in a path and left as it is in a query. */
  lemma StrayByteStays()
    ensures PercentDecode(Ascii("%FF")) == None && DecodeOr(Ascii("%FF")) == Ascii("%FF")
  {
    var s := Ascii("%FF");
    assert s == [PERCENT, 70, 70] + [];
    DecodeEscape(70, 70, 15, 15, []);
    assert Decode(s) == [255];
  }

  predicate IsEncoded(s: Bytes) {
    forall i :: 0 <= i < |s| ==> IsUnreserved(s[i]) || s[i] == PERCENT
  }

  lemma {:induction false} EncodeIsEncoded(s: Bytes)
    ensures IsEncoded(Encode(s))
    ensures Encode(s) == [] <==> s == []
  {
    if s != [] { EncodeIsEncoded(s[1..]); }
  }

  lemma {:induction false} ReplaceAbsent(s: Bytes, c: byte, with: Bytes)
    requires c !in s
    ensures Replace(s, c, with) == s
  {
    if s != [] {
      ReplaceAbsent(s[1..], c, with);
      assert s == [s[0]] + s[1..];
    }
  }

  /** The flag makes no difference: a slash is always encoded, against the comment on `aws_uri_encode`. */
  lemma SlashFlagIsIdle(s: Bytes, encodeSlash: bool)
    ensures AwsUriEncode(s, encodeSlash) == Encode(s) && SLASH !in Encode(s)
  {
    EncodeIsEncoded(s);
    ReplaceAbsent(Encode(s), SLASH, Ascii("%2F"));
  }

  lemma DecodeEncodedByte(c: byte, rest: Bytes)
    ensures Decode(EncodeByte(c) + rest) == [c] + Decode(rest)
  {
    var s := EncodeByte(c) + rest;
    if IsUnreserved(c) {
      assert s[1..] == rest;
    } else {
      assert HexValue(s[1]) == Some(c as nat / 16) && HexValue(s[2]) == Some(c as nat % 16);
      assert s[3..] == rest;
    }
  }

  lemma {:induction false} DecodeEncode(s: Bytes)
    ensures Decode(Encode(s)) == s
  {
    if s != [] {
      DecodeEncode(s[1..]);
      DecodeEncodedByte(s[0], Encode(s[1..]));
      assert s == [s[0]] + s[1..];
    }
  }

  lemma EncodeInjective(a: Bytes, b: Bytes)
    requires Encode(a) == Encode(b)
    ensures a == b
  {
    DecodeEncode(a);
    DecodeEncode(b);
  }

  // ---- the canonical query ----

  type Pair = (Bytes, Bytes)

  predicate PairLe(a: Pair, b: Pair) {
    if a.0 == b.0 then Le(a.1, b.1) else Le(a.0, b.0)
  }

  function EncodePair(p: Pair): Pair {
    (AwsUriEncode(p.0, true), AwsUriEncode(p.1, true))
  }

  /** The order of the encoded pairs. */
  predicate EncodedLe(a: Pair, b: Pair) {
    PairLe(EncodePair(a), EncodePair(b))
  }

  function Map<A, B>(f: A -> B, s: seq<A>): (r: seq<B>)
    ensures |r| == |s| && forall i :: 0 <= i < |s| ==> r[i] == f(s[i])
  {
    seq(|s|, i requires 0 <= i < |s| => f(s[i]))
  }

  function PairField(p: Pair): Bytes {
    p.0 + [EQUALS] + p.1
  }

  /** `canonical_query`. */
  function CanonicalQuery(query: seq<Pair>): Bytes {
    Join(Map(PairField, Sort(PairLe, Map(EncodePair, query))), AMPERSAND)
  }

  // ---- the query parser ----

  function ParsePair(field: Bytes): Pair {
    match SplitOnce(field, EQUALS)
    case Some((k, v)) => (DecodeOr(k), DecodeOr(v))
    case None => (DecodeOr(field), DecodeOr([]))
  }

  function ParseFields(fields: seq<Bytes>): seq<Pair> {
    if fields == [] then []
    else
      var last := fields[|fields| - 1];
      ParseFields(fields[..|fields| - 1]) + (if last == [] then [] else [ParsePair(last)])
  }

  function QueryOf(query: Bytes): seq<Pair> {
    ParseFields(Split(query, AMPERSAND))
  }

  /** `parse_query`. */
  method ParseQuery(query: Bytes) returns (out: seq<Pair>)
    ensures out == QueryOf(query)
  {
    out := [];
    var fields := Split(query, AMPERSAND);
    for i := 0 to |fields|
      invariant out == ParseFields(fields[..i])
    {
      var pair := fields[i];
      assert fields[..i + 1][..i] == fields[..i];
      if pair == [] { continue; }
      var k, v := pair, [];
      match SplitOnce(pair, EQUALS) {
        case Some((name, value)) => k, v := name, value;
        case None =>
      }
      out := out + [(DecodeOr(k), DecodeOr(v))];
    }
    assert fields[..|fields|] == fields;
  }

  // ---- what the parser makes of any query ----

  lemma {:induction false} ParseFieldsAppend(a: seq<Bytes>, b: seq<Bytes>)
    ensures ParseFields(a + b) == ParseFields(a) + ParseFields(b)
  {
    if b == [] {
      assert a + b == a;
    } else {
      var init, last := b[..|b| - 1], b[|b| - 1];
      assert (a + b)[..|a + b| - 1] == a + init;
      ParseFieldsAppend(a, init);
    }
  }

  /** The fields between ampersands are parsed one by one, in order. */
  lemma QueryAppend(a: Bytes, b: Bytes)
    ensures QueryOf(a + [AMPERSAND] + b) == QueryOf(a) + QueryOf(b)
  {
    SplitBoth(a, b, AMPERSAND);
    ParseFieldsAppend(Split(a, AMPERSAND), Split(b, AMPERSAND));
  }

  /** An empty field is none. */
  lemma QueryOfNothing()
    ensures QueryOf([]) == []
  {
    var none: seq<Bytes> := [[]];
    assert Split([], AMPERSAND) == none;
    assert none[..0] == [] && ParseFields(none[..0]) == [];
    assert ParseFields(none) == ParseFields(none[..0]) + [];
  }

  lemma OneField(field: Bytes)
    requires AMPERSAND !in field && field != []
    ensures QueryOf(field) == [ParsePair(field)]
  {
    SplitPlain(field, AMPERSAND);
    var one := [field];
    assert one[..0] == [] && ParseFields(one) == ParseFields(one[..0]) + [ParsePair(field)];
  }

  /** A field is cut at its first `=`, and without one it is a name with an empty value; a name or value that does
      not decode to text stays as it is. */
  lemma QueryOfField(name: Bytes, value: Bytes)
    requires EQUALS !in name && AMPERSAND !in name && AMPERSAND !in value
    ensures QueryOf(name + [EQUALS] + value) == [(DecodeOr(name), DecodeOr(value))]
    ensures name != [] ==> QueryOf(name) == [(DecodeOr(name), [])]
  {
    OneField(name + [EQUALS] + value);
    SplitOnceAt(name, value, EQUALS);
    if name != [] {
      OneField(name);
      if SplitOnce(name, EQUALS).Some? { SplitOnceIs(name, EQUALS); }
    }
  }

  // ---- the parser undoes the printer ----

  ghost predicate IsText(query: seq<Pair>) {
    forall p :: p in query ==> IsUtf8(p.0) && IsUtf8(p.1)
  }

  lemma EncodePairIs(p: Pair)
    ensures EncodePair(p) == (Encode(p.0), Encode(p.1))
    ensures IsEncoded(Encode(p.0)) && IsEncoded(Encode(p.1))
  {
    SlashFlagIsIdle(p.0, true);
    SlashFlagIsIdle(p.1, true);
    EncodeIsEncoded(p.0);
    EncodeIsEncoded(p.1);
  }

  lemma DecodeOrEncode(s: Bytes)
    requires IsUtf8(s)
    ensures DecodeOr(Encode(s)) == s
  {
    DecodeEncode(s);
  }

  lemma EncodedField(k: Bytes, v: Bytes)
    requires IsEncoded(k) && IsEncoded(v)
    ensures var field := PairField((k, v));
      field != [] && AMPERSAND !in field && SplitOnce(field, EQUALS) == Some((k, v))
  {
    SplitOnceAt(k, v, EQUALS);
  }

  lemma ParsePrintedPair(p: Pair)
    requires IsUtf8(p.0) && IsUtf8(p.1)
    ensures var field := PairField(EncodePair(p));
      field != [] && AMPERSAND !in field && ParsePair(field) == p
  {
    EncodePairIs(p);
    EncodedField(Encode(p.0), Encode(p.1));
    DecodeOrEncode(p.0);
    DecodeOrEncode(p.1);
  }

  lemma PairLeIsOrder()
    ensures TotalPreorder(PairLe) && Antisymmetric(PairLe)
  {
    forall a, b ensures PairLe(a, b) || PairLe(b, a) { LeTotal(a.0, b.0); LeTotal(a.1, b.1); }
    forall a, b, c | PairLe(a, b) && PairLe(b, c)
      ensures PairLe(a, c)
    {
      if a.0 == b.0 == c.0 { LeTransitive(a.1, b.1, c.1); }
      else if a.0 != b.0 || b.0 != c.0 {
        if a.0 != b.0 && b.0 != c.0 { LtTransitive(a.0, b.0, c.0); }
      }
    }
    forall a, b | PairLe(a, b) && PairLe(b, a)
      ensures a == b
    {
      if a.0 == b.0 { LeAntisymmetric(a.1, b.1); } else { LeAntisymmetric(a.0, b.0); }
    }
  }

  lemma EncodedLeIsOrder()
    ensures TotalPreorder(EncodedLe) && Antisymmetric(EncodedLe)
  {
    PairLeIsOrder();
    forall a, b | EncodedLe(a, b) && EncodedLe(b, a)
      ensures a == b
    {
      EncodePairIs(a);
      EncodePairIs(b);
      EncodeInjective(a.0, b.0);
      EncodeInjective(a.1, b.1);
    }
  }

  lemma {:induction false} InsertEncoded(x: Pair, s: seq<Pair>)
    ensures Insert(PairLe, EncodePair(x), Map(EncodePair, s)) == Map(EncodePair, Insert(EncodedLe, x, s))
  {
    if s != [] && !EncodedLe(x, s[0]) {
      InsertEncoded(x, s[1..]);
      assert Map(EncodePair, s)[1..] == Map(EncodePair, s[1..]);
      var rest := Insert(EncodedLe, x, s[1..]);
      assert Map(EncodePair, [s[0]] + rest) == [EncodePair(s[0])] + Map(EncodePair, rest);
    } else {
      assert Map(EncodePair, [x] + s) == [EncodePair(x)] + Map(EncodePair, s);
    }
  }

  /** Sorting the encoded pairs is encoding the pairs sorted in the order of their encodings. */
  lemma {:induction false} SortEncoded(query: seq<Pair>)
    ensures Sort(PairLe, Map(EncodePair, query)) == Map(EncodePair, Sort(EncodedLe, query))
  {
    if query == [] {
      assert Map(EncodePair, query) == [];
    } else {
      SortEncoded(query[1..]);
      assert Map(EncodePair, query)[1..] == Map(EncodePair, query[1..]);
      InsertEncoded(query[0], Sort(EncodedLe, query[1..]));
    }
  }

  function Printed(p: Pair): Bytes {
    PairField(EncodePair(p))
  }

  lemma ParseLastField(fields: seq<Bytes>, p: Pair)
    requires IsUtf8(p.0) && IsUtf8(p.1)
    ensures ParseFields(fields + [Printed(p)]) == ParseFields(fields) + [p]
  {
    ParsePrintedPair(p);
    assert (fields + [Printed(p)])[..|fields|] == fields;
  }

  lemma {:induction false} ParsePrintedFields(query: seq<Pair>)
    requires IsText(query)
    ensures ParseFields(Map(Printed, query)) == query
  {
    if query == [] {
      assert Map(Printed, query) == [];
    } else {
      var init, last := query[..|query| - 1], query[|query| - 1];
      assert query == init + [last];
      assert Map(Printed, query) == Map(Printed, init) + [Printed(last)];
      ParsePrintedFields(init);
      ParseLastField(Map(Printed, init), last);
    }
  }

  lemma ParseJoinedFields(query: seq<Pair>)
    requires IsText(query)
    ensures QueryOf(Join(Map(Printed, query), AMPERSAND)) == query
  {
    var fields := Map(Printed, query);
    if query == [] {
      assert fields == [];
      assert Split([], AMPERSAND) == [[]];
      var none: seq<Bytes> := [[]];
      assert none[..0] == [];
    } else {
      forall i | 0 <= i < |fields|
        ensures AMPERSAND !in fields[i]
      {
        assert query[i] in query;
        ParsePrintedPair(query[i]);
      }
      SplitJoin(fields, AMPERSAND);
      ParsePrintedFields(query);
    }
  }

  /** Parsing a canonical query gives the query back, in the order of its encoded pairs. */
  lemma ParseCanonicalQuery(query: seq<Pair>)
    requires IsText(query)
    ensures QueryOf(CanonicalQuery(query)) == Sort(EncodedLe, query)
  {
    var sorted := Sort(EncodedLe, query);
    forall p | p in sorted
      ensures p in query
    {
      MemberOfMultiset(sorted, p);
      MemberOfMultiset(query, p);
    }
    SortEncoded(query);
    assert Map(PairField, Map(EncodePair, sorted)) == Map(Printed, sorted);
    ParseJoinedFields(sorted);
  }

  /** The canonical query is, between ampersands, each pair once as `name=value`, percent-encoded, in the order of
      the encoded pairs. */
  lemma CanonicalQueryFields(query: seq<Pair>)
    requires IsText(query)
    ensures query == [] ==> CanonicalQuery(query) == []
    ensures query != [] ==>
      Split(CanonicalQuery(query), AMPERSAND) == Map(Printed, Sort(EncodedLe, query))
    ensures Sorted(EncodedLe, Sort(EncodedLe, query)) && multiset(Sort(EncodedLe, query)) == multiset(query)
    ensures forall p: Pair :: Printed(p) == Encode(p.0) + [EQUALS] + Encode(p.1)
  {
    var sorted := Sort(EncodedLe, query);
    SortEncoded(query);
    EncodedLeIsOrder();
    SortSorted(EncodedLe, query);
    assert Map(PairField, Map(EncodePair, sorted)) == Map(Printed, sorted);
    forall p: Pair ensures Printed(p) == Encode(p.0) + [EQUALS] + Encode(p.1) { EncodePairIs(p); }
    assert |multiset(sorted)| == |sorted| && |multiset(query)| == |query|;
    forall i | 0 <= i < |sorted|
      ensures AMPERSAND !in Map(Printed, sorted)[i]
    {
      EncodePairIs(sorted[i]);
      EncodedField(Encode(sorted[i].0), Encode(sorted[i].1));
    }
    if query != [] { SplitJoin(Map(Printed, sorted), AMPERSAND); }
  }

  /** The order of the encoded pairs is by the encoded name and, for one name, by the encoded value. */
  lemma EncodedLeIff(a: Pair, b: Pair)
    ensures EncodedLe(a, b) <==>
      if a.0 == b.0 then Le(Encode(a.1), Encode(b.1)) else Lt(Encode(a.0), Encode(b.0))
  {
    EncodePairIs(a);
    EncodePairIs(b);
    if Encode(a.0) == Encode(b.0) { EncodeInjective(a.0, b.0); }
  }

  /** The canonical query is a faithful normal form: two queries share it just if they hold the same pairs
      equally often. */
  lemma CanonicalQueryIff(a: seq<Pair>, b: seq<Pair>)
    requires IsText(a) && IsText(b)
    ensures CanonicalQuery(a) == CanonicalQuery(b) <==> multiset(a) == multiset(b)
  {
    ParseCanonicalQuery(a);
    ParseCanonicalQuery(b);
    if multiset(a) == multiset(b) {
      EncodedLeIsOrder();
      SortSorted(EncodedLe, a);
      SortSorted(EncodedLe, b);
      SortedUnique(EncodedLe, Sort(EncodedLe, a), Sort(EncodedLe, b));
      SortEncoded(a);
      SortEncoded(b);
    }
  }

  // ---- the canonical path ----

  function CanonicalSegment(seg: Bytes): Bytes {
    AwsUriEncode(DecodeOr(seg), false)
  }

  /** `canonical_uri`. */
  function CanonicalUri(path: Bytes): Bytes {
    Join(Map(CanonicalSegment, Split(path, SLASH)), SLASH)
  }

  /** `decode_path`: `None` stands for the error. */
  function DecodeSegments(segments: seq<Bytes>): Option<seq<Bytes>> {
    if segments == [] then Some([])
    else if segments[0] == [] then DecodeSegments(segments[1..])
    else
      match (PercentDecode(segments[0]), DecodeSegments(segments[1..]))
      case (Some(seg), Some(rest)) => Some([seg] + rest)
      case _ => None
  }

  function DecodePath(path: Bytes): Option<seq<Bytes>> {
    DecodeSegments(Split(path, SLASH))
  }

  // ---- what the parser makes of any path ----

  function Both(a: Option<seq<Bytes>>, b: Option<seq<Bytes>>): Option<seq<Bytes>> {
    if a.Some? && b.Some? then Some(a.value + b.value) else None
  }

  lemma BothBehind(seg: Option<Bytes>, a: Option<seq<Bytes>>, b: Option<seq<Bytes>>)
    ensures seg.Some? && a.Some? && b.Some? ==>
      ([seg.value] + a.value) + b.value == [seg.value] + Both(a, b).value
  {}

  lemma {:induction false} DecodeSegmentsAppend(a: seq<Bytes>, b: seq<Bytes>)
    ensures DecodeSegments(a + b) == Both(DecodeSegments(a), DecodeSegments(b))
  {
    if a == [] {
      assert a + b == b;
      if DecodeSegments(b).Some? { assert [] + DecodeSegments(b).value == DecodeSegments(b).value; }
    } else {
      assert (a + b)[1..] == a[1..] + b && (a + b)[0] == a[0];
      DecodeSegmentsAppend(a[1..], b);
      BothBehind(PercentDecode(a[0]), DecodeSegments(a[1..]), DecodeSegments(b));
    }
  }

  /** The segments between slashes are decoded one by one, in order, and one that is no text spoils the path. */
  lemma PathAppend(a: Bytes, b: Bytes)
    ensures DecodePath(a + [SLASH] + b) == Both(DecodePath(a), DecodePath(b))
  {
    SplitBoth(a, b, SLASH);
    DecodeSegmentsAppend(Split(a, SLASH), Split(b, SLASH));
  }

  lemma DecodeOne(seg: Bytes)
    ensures DecodeSegments([seg]) ==
      if seg == [] then Some([])
      else if PercentDecode(seg).Some? then Some([PercentDecode(seg).value]) else None
  {
    var one := [seg];
    assert one[1..] == [] && DecodeSegments(one[1..]) == Some([]);
    if seg != [] && PercentDecode(seg).Some? {
      var rest: seq<Bytes> := [];
      assert [PercentDecode(seg).value] + rest == [PercentDecode(seg).value];
    }
  }

  /** An empty segment is none; any other is decoded, or is an error. */
  lemma PathOfSegment(seg: Bytes)
    requires SLASH !in seg
    ensures DecodePath([]) == Some([])
    ensures seg != [] ==>
      DecodePath(seg) == if IsUtf8(Decode(seg)) then Some([Decode(seg)]) else None
  {
    SplitPlain(seg, SLASH);
    SplitPlain([], SLASH);
    DecodeOne(seg);
    DecodeOne([]);
  }

  lemma DecodeEmptyIff(s: Bytes)
    ensures Decode(s) == [] <==> s == []
  {}

  lemma CanonicalSegmentShape(seg: Bytes)
    requires IsUtf8(seg)
    ensures SLASH !in CanonicalSegment(seg)
    ensures CanonicalSegment(seg) == [] <==> seg == []
    ensures PercentDecode(CanonicalSegment(seg)) == Some(DecodeOr(seg))
    ensures CanonicalSegment(CanonicalSegment(seg)) == CanonicalSegment(seg)
  {
    SlashFlagIsIdle(DecodeOr(seg), false);
    DecodeEncode(DecodeOr(seg));
    EncodeIsEncoded(DecodeOr(seg));
    DecodeEmptyIff(seg);
  }

  /** The segments stay apart as they were, even where one holds an encoded slash or cannot be decoded. */
  lemma CanonicalSegments(path: Bytes)
    requires IsUtf8(path)
    ensures Split(CanonicalUri(path), SLASH) == Map(CanonicalSegment, Split(path, SLASH))
    ensures forall i :: 0 <= i < |Split(path, SLASH)| ==> IsUtf8(Split(path, SLASH)[i])
  {
    SplitUtf8(path, SLASH);
    var segments := Split(path, SLASH);
    forall i | 0 <= i < |segments|
      ensures SLASH !in CanonicalSegment(segments[i])
    {
      CanonicalSegmentShape(segments[i]);
    }
    SplitJoin(Map(CanonicalSegment, segments), SLASH);
  }

  /** Canonical form is reached at once. */
  lemma CanonicalUriIdempotent(path: Bytes)
    requires IsUtf8(path)
    ensures CanonicalUri(CanonicalUri(path)) == CanonicalUri(path)
  {
    CanonicalSegments(path);
    var segments := Split(path, SLASH);
    forall i | 0 <= i < |segments|
      ensures CanonicalSegment(CanonicalSegment(segments[i])) == CanonicalSegment(segments[i])
    {
      CanonicalSegmentShape(segments[i]);
    }
    assert Map(CanonicalSegment, Map(CanonicalSegment, segments)) == Map(CanonicalSegment, segments);
  }

  /** Every segment of a canonical path is the encoding of what the segment before stood for, or of its very
      text if it stood for none. */
  lemma CanonicalUriEncodes(path: Bytes)
    requires IsUtf8(path)
    ensures var was, now := Split(path, SLASH), Split(CanonicalUri(path), SLASH);
      |now| == |was| && forall i :: 0 <= i < |was| ==>
        now[i] == Encode(if IsUtf8(Decode(was[i])) then Decode(was[i]) else was[i])
  {
    CanonicalSegments(path);
    var segments := Split(path, SLASH);
    forall i | 0 <= i < |segments|
      ensures CanonicalSegment(segments[i]) == Encode(DecodeOr(segments[i]))
    {
      SlashFlagIsIdle(DecodeOr(segments[i]), false);
    }
  }

  /** The number of segments, and which of them are empty, do not change. */
  lemma CanonicalUriKeepsSlashes(path: Bytes)
    requires IsUtf8(path)
    ensures var was, now := Split(path, SLASH), Split(CanonicalUri(path), SLASH);
      |now| == |was| && forall i :: 0 <= i < |was| ==> (now[i] == [] <==> was[i] == [])
  {
    CanonicalSegments(path);
    var segments := Split(path, SLASH);
    forall i | 0 <= i < |segments|
      ensures CanonicalSegment(segments[i]) == [] <==> segments[i] == []
    {
      CanonicalSegmentShape(segments[i]);
    }
  }

  lemma {:induction false} DecodeCanonicalSegments(segments: seq<Bytes>)
    requires forall i :: 0 <= i < |segments| ==> IsUtf8(segments[i])
    ensures DecodeSegments(Map(CanonicalSegment, segments)).Some?
    ensures DecodeSegments(segments).Some? ==>
      DecodeSegments(Map(CanonicalSegment, segments)) == DecodeSegments(segments)
  {
    var canonical := Map(CanonicalSegment, segments);
    if segments != [] {
      assert canonical[1..] == Map(CanonicalSegment, segments[1..]);
      CanonicalSegmentShape(segments[0]);
      DecodeCanonicalSegments(segments[1..]);
    }
  }

  /** The canonical form always decodes, and addresses the same object as the path just if the path decodes. */
  lemma CanonicalUriDecodes(path: Bytes)
    requires IsUtf8(path)
    ensures DecodePath(CanonicalUri(path)).Some?
    ensures DecodePath(CanonicalUri(path)) == DecodePath(path) <==> DecodePath(path).Some?
  {
    CanonicalSegments(path);
    DecodeCanonicalSegments(Split(path, SLASH));
  }
}
