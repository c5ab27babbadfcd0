/** Byte ranges: the parser of the `Range` header, the positions it denotes, and the blocks that a stream
    of the object delivers for them. */
module Ranges {
  import opened ByteStrings
  import opened Objects

  const U64: nat := 0x1_0000_0000_0000_0000

  datatype RangeParse = Valid(start: nat, len: nat) | Invalid | Ignored

  function BYTES_UNIT(): Bytes {
    Ascii("bytes=")
  }

  const COMMA: byte := 44
  const DASH: byte := 45

  /** `parse_range`. */
  function ParseRange(header: Bytes, size: nat): (r: RangeParse)
    ensures r.Valid? ==> 1 <= r.len && r.start + r.len <= size
  {
    if !(BYTES_UNIT() <= header) then Ignored
    else
      var spec := header[|BYTES_UNIT()|..];
      if COMMA in spec then Ignored
      else
        match SplitOnce(spec, DASH)
        case None => Ignored
        case Some((first, last)) => if first == [] then SuffixRange(last, size) else FromRange(first, last, size)
  }

  function SuffixRange(last: Bytes, size: nat): RangeParse {
    match ParseNumber(last, 10)
    case None => Ignored
    case Some(n) =>
      if n == 0 || size == 0 then Invalid
      else
        var start := if n <= size then size - n else 0;
        Valid(start, size - start)
  }

  function FromRange(first: Bytes, last: Bytes, size: nat): RangeParse {
    match ParseNumber(first, 10)
    case None => Ignored
    case Some(start) =>
      if start >= size then Invalid
      else
        match LastPosition(last, size)
        case None => Ignored
        case Some(end) => if end < start then Ignored else Valid(start, end - start + 1)
  }

  function LastPosition(last: Bytes, size: nat): Option<nat>
    requires size > 0
  {
    if last == [] then Some(size - 1)
    else
      match ParseNumber(last, 10)
      case None => None
      case Some(n) => Some(Min(n, size - 1))
  }

  // ---- what a range denotes ----

  /** The range-specs of section 14.1.2 of RFC 9110. */
  datatype Spec = FromTo(first: nat, last: Option<nat>) | Suffix(n: nat)

  predicate IsReversed(spec: Spec) {
    spec.FromTo? && spec.last.Some? && spec.last.value < spec.first
  }

  /** Position `i` of a representation of `size` bytes is selected. */
  predicate Denotes(spec: Spec, size: nat, i: nat) {
    && i < size
    && match spec
       case FromTo(first, last) => first <= i && (last.Some? ==> i <= last.value)
       case Suffix(n) => size <= i + n
  }

  /** One or more decimal digits, of any value. */
  predicate IsNumeral(s: Bytes) {
    s != [] && forall i :: 0 <= i < |s| ==> 48 <= s[i] <= 57
  }

  function Numeral(s: Bytes): nat
    requires IsNumeral(s)
  {
    NumberOf(seq(|s|, i requires 0 <= i < |s| => (s[i] - 48) as nat), 10)
  }

  /** `a` and `b` stand before and behind the dash of a range-spec. */
  predicate Spells(a: Bytes, b: Bytes, spec: Spec) {
    match spec
    case Suffix(n) => a == [] && IsNumeral(b) && Numeral(b) == n
    case FromTo(first, last) =>
      && IsNumeral(a) && Numeral(a) == first
      && (if last.Some? then IsNumeral(b) && Numeral(b) == last.value else b == [])
  }

  function HeaderOf(a: Bytes, b: Bytes): Bytes {
    BYTES_UNIT() + (a + [DASH] + b)
  }

  /** The header is a way to write the range by the grammar of section 14.1.2 of RFC 9110, as one range-spec
      and with the unit in lower case; the numbers may have any value. */
  ghost predicate Written(header: Bytes, spec: Spec) {
    exists a, b :: header == HeaderOf(a, b) && Spells(a, b, spec)
  }

  function Print(spec: Spec): Bytes {
    match spec
    case FromTo(first, last) => HeaderOf(Decimal(first), if last.Some? then Decimal(last.value) else [])
    case Suffix(n) => HeaderOf([], Decimal(n))
  }

  lemma DecimalIsNumeral(n: nat)
    ensures IsNumeral(Decimal(n)) && Numeral(Decimal(n)) == n
  {
    var d, s := Digits(n, 10), Decimal(n);
    assert seq(|s|, i requires 0 <= i < |s| => (s[i] - 48) as nat) == d;
    NumberOfDigits(n, 10);
  }

  lemma PrintWritten(spec: Spec)
    ensures Written(Print(spec), spec)
  {
    var a := if spec.FromTo? then Decimal(spec.first) else [];
    var b := if spec.Suffix? then Decimal(spec.n) else if spec.last.Some? then Decimal(spec.last.value) else [];
    if spec.FromTo? {
      DecimalIsNumeral(spec.first);
      if spec.last.Some? { DecimalIsNumeral(spec.last.value); }
    } else {
      DecimalIsNumeral(spec.n);
    }
    assert Print(spec) == HeaderOf(a, b) && Spells(a, b, spec);
  }

  // ---- the number parser against the grammar ----

  /** What `str::parse` makes of a field: numerals below 2^64, with or without a plus sign. */
  lemma ParseNumberIs(s: Bytes)
    ensures ParseNumber(s, 10)
      == if IsNumeral(Plain(s)) && Numeral(Plain(s)) < U64 then Some(Numeral(Plain(s))) else None
  {
    var t := Plain(s);
    forall i | 0 <= i < |t|
      ensures IsDigit(t[i], 10) <==> 48 <= t[i] <= 57
    {}
    assert AreDigits(t, 10) <==> IsNumeral(t);
    if IsNumeral(t) {
      assert DigitValues(t) == seq(|t|, i requires 0 <= i < |t| => (t[i] - 48) as nat);
    }
  }

  lemma NumeralIsPlain(s: Bytes)
    requires IsNumeral(s)
    ensures Plain(s) == s && DASH !in s && COMMA !in s
  {}

  lemma HeaderSplits(a: Bytes, b: Bytes, size: nat)
    requires DASH !in a && COMMA !in a + [DASH] + b
    ensures ParseRange(HeaderOf(a, b), size) == if a == [] then SuffixRange(b, size) else FromRange(a, b, size)
  {
    var header, spec := HeaderOf(a, b), a + [DASH] + b;
    assert header[|BYTES_UNIT()|..] == spec;
    SplitOnceAt(a, b, DASH);
  }

  /** A number that the server would have to read to answer the range does not fit its 64 bits. */
  predicate TooBig(spec: Spec, size: nat) {
    match spec
    case Suffix(n) => n >= U64
    case FromTo(first, last) => first >= U64 || (first < size && last.Some? && last.value >= U64)
  }

  /** The answer to a range-spec: a function of its numbers alone. */
  function Answer(spec: Spec, size: nat): RangeParse {
    if TooBig(spec, size) then Ignored
    else
      match spec
      case Suffix(n) =>
        if n == 0 || size == 0 then Invalid else Valid(if n <= size then size - n else 0, Min(n, size))
      case FromTo(first, last) =>
        if first >= size then Invalid
        else
          var end := if last.Some? then Min(last.value, size - 1) else size - 1;
          if end < first then Ignored else Valid(first, end - first + 1)
  }

  lemma SuffixAnswer(b: Bytes, size: nat, n: nat)
    requires IsNumeral(b) && Numeral(b) == n
    ensures SuffixRange(b, size) == Answer(Suffix(n), size)
  {
    NumeralIsPlain(b);
    ParseNumberIs(b);
  }

  lemma FromAnswer(a: Bytes, b: Bytes, size: nat, spec: Spec)
    requires spec.FromTo? && Spells(a, b, spec)
    ensures FromRange(a, b, size) == Answer(spec, size)
  {
    NumeralIsPlain(a);
    ParseNumberIs(a);
    if b != [] {
      NumeralIsPlain(b);
      ParseNumberIs(b);
    }
  }

  lemma SpelledSplits(a: Bytes, b: Bytes, size: nat, spec: Spec)
    requires Spells(a, b, spec)
    ensures ParseRange(HeaderOf(a, b), size) == if a == [] then SuffixRange(b, size) else FromRange(a, b, size)
  {
    if a != [] { NumeralIsPlain(a); }
    if b != [] { NumeralIsPlain(b); }
    HeaderSplits(a, b, size);
  }

  lemma WrittenParses(header: Bytes, size: nat, spec: Spec)
    requires Written(header, spec)
    ensures ParseRange(header, size) == Answer(spec, size)
  {
    var a, b :| header == HeaderOf(a, b) && Spells(a, b, spec);
    SpelledSplits(a, b, size, spec);
    if spec.Suffix? { SuffixAnswer(b, size, spec.n); } else { FromAnswer(a, b, size, spec); }
  }

  /** A range that is written in a header is answered, if at all, by exactly the positions it denotes, which lie
      inside the object; it is called invalid only if it denotes none; and it is ignored if and only if it is
      reversed and starts inside the object, or a number in it does not fit 64 bits. */
  lemma RangeDenotation(header: Bytes, size: nat, spec: Spec)
    requires Written(header, spec)
    ensures match ParseRange(header, size)
      case Valid(start, len) =>
        1 <= len && start + len <= size && forall i: nat :: Denotes(spec, size, i) <==> start <= i < start + len
      case Invalid => forall i: nat :: !Denotes(spec, size, i)
      case Ignored => true
    ensures ParseRange(header, size) == Ignored <==> TooBig(spec, size) || (IsReversed(spec) && spec.first < size)
    ensures ParseRange(header, size).Valid? <==> !TooBig(spec, size) && exists i: nat :: Denotes(spec, size, i)
  {
    WrittenParses(header, size, spec);
    match ParseRange(header, size)
    case Valid(start, len) => assert Denotes(spec, size, start);
    case _ =>
  }

  /** Every header that is answered with a range has two fields around its first dash which, once plus signs are
      dropped, write a range, the one that is answered. The header itself writes a range if and only if there
      was no plus sign to drop. */
  lemma ValidIsWritten(header: Bytes, size: nat) returns (a: Bytes, b: Bytes, spec: Spec)
    requires ParseRange(header, size).Valid?
    ensures header == HeaderOf(a, b) && DASH !in a
    ensures Written(HeaderOf(Plain(a), Plain(b)), spec)
    ensures ParseRange(header, size) == ParseRange(HeaderOf(Plain(a), Plain(b)), size)
    ensures (exists other :: Written(header, other)) <==> Plain(a) == a && Plain(b) == b
  {
    var text := header[|BYTES_UNIT()|..];
    SplitOnceIs(text, DASH);
    a, b := SplitOnce(text, DASH).value.0, SplitOnce(text, DASH).value.1;
    assert header == HeaderOf(a, b);
    ParseNumberIs(a);
    ParseNumberIs(b);
    HeaderSplits(a, b, size);
    spec := AnsweredSpec(a, b, size);
    WrittenParses(HeaderOf(Plain(a), Plain(b)), size, spec);
    if other :| Written(header, other) {
      WrittenFields(a, b, other);
    }
  }

  /** The range that the two fields of an answered header stand for. */
  lemma AnsweredSpec(a: Bytes, b: Bytes, size: nat) returns (spec: Spec)
    requires if a == [] then SuffixRange(b, size).Valid? else FromRange(a, b, size).Valid?
    ensures Spells(Plain(a), Plain(b), spec) && Written(HeaderOf(Plain(a), Plain(b)), spec)
    ensures (if a == [] then SuffixRange(b, size) else FromRange(a, b, size)) == Answer(spec, size)
  {
    ParseNumberIs(a);
    ParseNumberIs(b);
    spec := if a == [] then Suffix(Numeral(Plain(b)))
            else FromTo(Numeral(Plain(a)), if b == [] then None else Some(Numeral(Plain(b))));
    assert Spells(Plain(a), Plain(b), spec);
  }

  /** The two fields of a header that writes a range have no plus signs. */
  lemma WrittenFields(a: Bytes, b: Bytes, spec: Spec)
    requires DASH !in a && Written(HeaderOf(a, b), spec)
    ensures Spells(a, b, spec) && Plain(a) == a && Plain(b) == b
  {
    var c, d :| HeaderOf(a, b) == HeaderOf(c, d) && Spells(c, d, spec);
    if c != [] { NumeralIsPlain(c); }
    if d != [] { NumeralIsPlain(d); }
    var n := |BYTES_UNIT()|;
    assert HeaderOf(a, b)[n..] == a + [DASH] + b && HeaderOf(c, d)[n..] == c + [DASH] + d;
    SplitOnceAt(a, b, DASH);
    SplitOnceAt(c, d, DASH);
  }

  // ---- every other header ----

  /** A header that names the unit and holds one dash-separated pair of fields, with no comma. */
  ghost predicate HasFields(header: Bytes, a: Bytes, b: Bytes) {
    header == HeaderOf(a, b) && DASH !in a && COMMA !in a + [DASH] + b
  }

  /** A number that the server can read: at most one plus sign, then digits, the value below 2^64. */
  predicate Readable(s: Bytes) {
    IsNumeral(Plain(s)) && Numeral(Plain(s)) < U64
  }

  /** A suffix of no bytes, a suffix of an empty object, or a start behind the end, whatever follows the dash. */
  predicate SelectsNothing(a: Bytes, b: Bytes, size: nat) {
    if a == [] then Readable(b) && (Numeral(Plain(b)) == 0 || size == 0)
    else Readable(a) && Numeral(Plain(a)) >= size
  }

  lemma FieldsOf(header: Bytes, size: nat) returns (a: Bytes, b: Bytes)
    requires ParseRange(header, size) != Ignored
    ensures HasFields(header, a, b)
  {
    var text := header[|BYTES_UNIT()|..];
    SplitOnceIs(text, DASH);
    a, b := SplitOnce(text, DASH).value.0, SplitOnce(text, DASH).value.1;
    assert text == a + [DASH] + b && header == HeaderOf(a, b);
  }

  lemma FieldsInvalidIff(a: Bytes, b: Bytes, size: nat)
    ensures (if a == [] then SuffixRange(b, size) else FromRange(a, b, size)) == Invalid <==> SelectsNothing(a, b, size)
  {
    ParseNumberIs(a);
    ParseNumberIs(b);
  }

  /** Exactly these headers are rejected: whatever else is no range is ignored. What stands behind the dash is not
      looked at when the start lies behind the end. */
  lemma InvalidIff(header: Bytes, size: nat)
    ensures ParseRange(header, size) == Invalid
      <==> exists a, b :: HasFields(header, a, b) && SelectsNothing(a, b, size)
  {
    if ParseRange(header, size) == Invalid {
      var a, b := FieldsOf(header, size);
      HeaderSplits(a, b, size);
      FieldsInvalidIff(a, b, size);
      assert HasFields(header, a, b) && SelectsNothing(a, b, size);
    }
    if a, b :| HasFields(header, a, b) && SelectsNothing(a, b, size) {
      HeaderSplits(a, b, size);
      FieldsInvalidIff(a, b, size);
    }
  }

  lemma NumberUnplussed(s: Bytes)
    requires Readable(s) || s == []
    ensures ParseNumber(Plain(s), 10) == ParseNumber(s, 10) && (Plain(s) == [] <==> s == [])
  {
    ParseNumberIs(s);
    ParseNumberIs(Plain(s));
  }

  lemma FieldsUnplussed(a: Bytes, b: Bytes, size: nat)
    requires Readable(a) || a == []
    requires Readable(b) || b == []
    ensures (if a == [] then SuffixRange(b, size) else FromRange(a, b, size))
      == if Plain(a) == [] then SuffixRange(Plain(b), size) else FromRange(Plain(a), Plain(b), size)
  {
    NumberUnplussed(a);
    NumberUnplussed(b);
  }

  /** Plus signs in front of numbers make no difference. */
  lemma PlusSignsDropOut(a: Bytes, b: Bytes, size: nat)
    requires HasFields(HeaderOf(a, b), a, b)
    requires Readable(a) || a == []
    requires Readable(b) || b == []
    ensures ParseRange(HeaderOf(a, b), size) == ParseRange(HeaderOf(Plain(a), Plain(b)), size)
  {
    HeaderSplits(a, b, size);
    HeaderSplits(Plain(a), Plain(b), size);
    FieldsUnplussed(a, b, size);
  }

  /** A start behind the end is rejected even where no range is written: `bytes=20-x` on 10 bytes. Another unit is
      ignored, and so are two ranges. */
  lemma OtherHeaders()
    ensures ParseRange(Ascii("bytes=20-x"), 10) == Invalid && forall spec :: !Written(Ascii("bytes=20-x"), spec)
    ensures ParseRange(Ascii("items=0-4"), 10) == Ignored && ParseRange(Ascii("bytes=0-1,3-4"), 10) == Ignored
  {
    var a, b := [50, 48], [120];
    UnitBytes();
    assert Ascii("bytes=20-x") == HeaderOf(a, b);
    TwoDigits(50, 48);
    assert Plain(a) == a && HasFields(HeaderOf(a, b), a, b) && SelectsNothing(a, b, 10);
    InvalidIff(HeaderOf(a, b), 10);
    forall spec
      ensures !Written(HeaderOf(a, b), spec)
    {
      if Written(HeaderOf(a, b), spec) { WrittenFields(a, b, spec); }
    }
    assert Ascii("items=0-4")[0] == 105;
    assert Ascii("bytes=0-1,3-4")[6..][3] == 44;
  }

  lemma UnitBytes()
    ensures BYTES_UNIT() == [98, 121, 116, 101, 115, 61] && [DASH] == Ascii("-") && [COMMA] == Ascii(",")
  {}

  lemma TwoDigits(c: byte, d: byte)
    requires 48 <= c <= 57 && 48 <= d <= 57
    ensures IsNumeral([c, d]) && Numeral([c, d]) == 10 * (c - 48) as nat + (d - 48) as nat
  {
    var x: seq<nat> := [(c - 48) as nat, (d - 48) as nat];
    assert seq(|[c, d]|, i requires 0 <= i < |[c, d]| => ([c, d][i] - 48) as nat) == x;
    assert x == [x[0]] + [x[1]] && [x[0]] == [] + [x[0]];
    NumberOfSnoc([x[0]], x[1], 10);
    NumberOfSnoc([], x[0], 10);
  }

  // ---- the verdicts of the RFC ----

  datatype Verdict = Satisfied | Rejected | Disregarded

  /** How a server that honours ranges may treat a range. Sections 14.1.1 and 14.2 of RFC 9110: a reversed range
      is invalid, and may be ignored or rejected. Section 14.1.2: of the others, one that selects some position is
      satisfiable, and one that selects none is not. */
  ghost function RfcVerdicts(spec: Spec, size: nat): set<Verdict> {
    if IsReversed(spec) then {Rejected, Disregarded}
    else if exists i: nat :: Denotes(spec, size, i) then {Satisfied}
    else {Rejected}
  }

  function VerdictOf(r: RangeParse): Verdict {
    match r
    case Valid(_, _) => Satisfied
    case Invalid => Rejected
    case Ignored => Disregarded
  }

  /** The server's verdict is one of these if and only if the range is reversed, or no number that has to be read
      exceeds 64 bits. A reversed range is disregarded if it starts inside the object or its start is too big,
      and rejected otherwise. */
  lemma VerdictAllowedIff(header: Bytes, size: nat, spec: Spec)
    requires Written(header, spec) && size < U64
    ensures VerdictOf(ParseRange(header, size)) in RfcVerdicts(spec, size) <==> IsReversed(spec) || !TooBig(spec, size)
    ensures IsReversed(spec) ==>
      (VerdictOf(ParseRange(header, size)) == Disregarded <==> spec.first < size || spec.first >= U64)
  {
    RangeDenotation(header, size, spec);
  }

  /** Three ranges with a number of 2^64 that are ignored: on 10 bytes the first two select positions, and the
      third none. */
  lemma BigNumbersAreIgnored()
    ensures ParseRange(Print(FromTo(0, Some(U64))), 10) == Ignored
    ensures RfcVerdicts(FromTo(0, Some(U64)), 10) == {Satisfied}
    ensures ParseRange(Print(Suffix(U64)), 10) == Ignored
    ensures RfcVerdicts(Suffix(U64), 10) == {Satisfied}
    ensures ParseRange(Print(FromTo(U64, None)), 10) == Ignored
    ensures RfcVerdicts(FromTo(U64, None), 10) == {Rejected}
  {
    var a, b, c := FromTo(0, Some(U64)), Suffix(U64), FromTo(U64, None);
    PrintWritten(a);
    PrintWritten(b);
    PrintWritten(c);
    WrittenParses(Print(a), 10, a);
    WrittenParses(Print(b), 10, b);
    WrittenParses(Print(c), 10, c);
    assert Denotes(a, 10, 0) && Denotes(b, 10, 0);
  }

  /** `bytes=+0-+4` is no range, and is answered with the first five bytes. */
  lemma PlusSignsPass()
    ensures ParseRange(Ascii("bytes=+0-+4"), 10) == Valid(0, 5)
    ensures forall spec :: !Written(Ascii("bytes=+0-+4"), spec)
  {
    UnitBytes();
    assert Ascii("bytes=+0-+4") == HeaderOf([43, 48], [43, 52]);
    var a, b := [43, 48], [43, 52];
    ParseNumberIs(a);
    ParseNumberIs(b);
    NumeralOfDigit(48);
    NumeralOfDigit(52);
    assert Plain(a) == [48] && Plain(b) == [52];
    HeaderSplits(a, b, 10);
    forall spec
      ensures !Written(HeaderOf(a, b), spec)
    {
      if Written(HeaderOf(a, b), spec) { WrittenFields(a, b, spec); }
    }
  }

  lemma NumeralOfDigit(c: byte)
    requires 48 <= c <= 57
    ensures IsNumeral([c]) && Numeral([c]) == (c - 48) as nat
  {
    var d: seq<nat> := [(c - 48) as nat];
    assert seq(|[c]|, i requires 0 <= i < |[c]| => ([c][i] - 48) as nat) == d;
    assert d[..0] == [];
    assert NumberOf(d, 10) == 10 * NumberOf([], 10) + d[0];
  }

  /** Both happen: one reversed range is rejected for an object of 10 bytes and disregarded for one of 20. */
  lemma ReversedRangeBothWays()
    ensures var header := Print(FromTo(10, Some(3)));
      ParseRange(header, 10) == Invalid && ParseRange(header, 20) == Ignored
  {
    var spec := FromTo(10, Some(3));
    PrintWritten(spec);
    WrittenParses(Print(spec), 10, spec);
    WrittenParses(Print(spec), 20, spec);
  }

  // ---- the response ----

  datatype Reply =
    | Reply(status: nat, contentRange: Option<(nat, nat, nat)>, contentLength: nat, body: Bytes)
    | RangeNotSatisfiable

  /** The response once the header is parsed; the body is what a storage-level read of the slice returns. */
  function Served(bytes: Bytes, range: RangeParse): Reply
    requires range.Valid? ==> 1 <= range.len && range.start + range.len <= |bytes|
  {
    match range
    case Valid(start, len) =>
      Reply(206, Some((start, start + len - 1, |bytes|)), len, Slice(bytes, start, Some(len)))
    case Invalid => RangeNotSatisfiable
    case Ignored => Reply(200, None, |bytes|, Slice(bytes, 0, None))
  }

  /** The range handling of the GET handler for an object that does not change meanwhile. */
  function Respond(bytes: Bytes, header: Option<Bytes>): Reply {
    Served(bytes, if header.Some? then ParseRange(header.value, |bytes|) else Ignored)
  }

  lemma ServedSlice(bytes: Bytes, start: nat, len: nat)
    requires 1 <= len && start + len <= |bytes|
    ensures Served(bytes, Valid(start, len)).body == bytes[start..start + len]
  {}

  /** The body is as long as Content-Length says and holds the bytes that Content-Range says; without a
      range it is the whole object. */
  predicate Consistent(bytes: Bytes, r: Reply) {
    r.Reply? ==>
      && |r.body| == r.contentLength
      && (r.contentRange.None? ==> r.body == bytes)
      && (r.contentRange.Some? ==>
            var (first, last, size) := r.contentRange.value;
            first <= last < size == |bytes| && r.body == bytes[first..last + 1])
  }

  lemma ServedAgrees(bytes: Bytes, range: RangeParse)
    requires range.Valid? ==> 1 <= range.len && range.start + range.len <= |bytes|
    ensures Consistent(bytes, Served(bytes, range))
  {
    if range.Valid? { ServedSlice(bytes, range.start, range.len); }
  }

  /** Whatever the Range header, the headers of the response agree with its body. */
  lemma HeadersAgree(bytes: Bytes, header: Option<Bytes>)
    ensures Consistent(bytes, Respond(bytes, header))
  {
    ServedAgrees(bytes, if header.Some? then ParseRange(header.value, |bytes|) else Ignored);
  }

  /** Without a Range header the whole object, and so with one that is ignored; 416 just for one that is rejected;
      206 with the range that was answered. */
  lemma ResponseIs(bytes: Bytes, header: Bytes)
    ensures Respond(bytes, None) == Reply(200, None, |bytes|, bytes)
    ensures match ParseRange(header, |bytes|)
      case Ignored => Respond(bytes, Some(header)) == Respond(bytes, None)
      case Invalid => Respond(bytes, Some(header)) == RangeNotSatisfiable
      case Valid(start, len) =>
        Respond(bytes, Some(header))
          == Reply(206, Some((start, start + len - 1, |bytes|)), len, bytes[start..start + len])
  {
    assert Slice(bytes, 0, None) == bytes;
    var range := ParseRange(header, |bytes|);
    if range.Valid? { ServedSlice(bytes, range.start, range.len); }
  }

  // ---- fetching an object in blocks ----

  /** The last position that a client with 64-bit numbers can ask for in a block. */
  function BlockEnd(at: nat, block: nat): nat
    requires block >= 1
  {
    Min(at + block - 1, U64 - 1)
  }

  /** The answer to a client that asks for `block` bytes from position `at` on. */
  function BlockBody(bytes: Bytes, at: nat, block: nat): Bytes
    requires block >= 1
  {
    var r := Respond(bytes, Some(Print(FromTo(at, Some(BlockEnd(at, block))))));
    if r.Reply? then r.body else []
  }

  /** A client that asks for block after block, each time for the one behind the last, until it has asked
      for `size` bytes. */
  function Fetch(answer: nat -> Bytes, size: nat, at: nat, block: nat): Bytes
    requires block >= 1
    decreases size - at
  {
    if at >= size then [] else answer(at) + Fetch(answer, size, at + block, block)
  }

  lemma BlockParses(size: nat, at: nat, block: nat)
    requires block >= 1 && at < size < U64
    ensures ParseRange(Print(FromTo(at, Some(BlockEnd(at, block)))), size) == Valid(at, Min(at + block, size) - at)
  {
    var spec := FromTo(at, Some(BlockEnd(at, block)));
    PrintWritten(spec);
    WrittenParses(Print(spec), size, spec);
  }

  lemma BlockReply(bytes: Bytes, at: nat, block: nat)
    requires block >= 1 && at < |bytes| < U64
    ensures BlockBody(bytes, at, block) == bytes[at..Min(at + block, |bytes|)]
  {
    BlockParses(|bytes|, at, block);
    ServedSlice(bytes, at, Min(at + block, |bytes|) - at);
  }

  lemma {:induction false} BlocksAddUp(answer: nat -> Bytes, bytes: Bytes, at: nat, block: nat)
    requires block >= 1
    requires forall k: nat :: k < |bytes| ==> answer(k) == bytes[k..Min(k + block, |bytes|)]
    ensures Fetch(answer, |bytes|, at, block) == bytes[Min(at, |bytes|)..]
    decreases |bytes| - at
  {
    if at < |bytes| {
      BlocksAddUp(answer, bytes, at + block, block);
      var to := Min(at + block, |bytes|);
      assert bytes[at..to] + bytes[to..] == bytes[at..];
    }
  }

  /** For every block size the answers add up to the object, whose size is a 64-bit number. */
  lemma BlocksAreTheObject(bytes: Bytes, block: nat)
    requires block >= 1 && |bytes| < U64
    ensures Fetch((at: nat) => BlockBody(bytes, at, block), |bytes|, 0, block) == bytes
  {
    forall at: nat | at < |bytes|
      ensures BlockBody(bytes, at, block) == bytes[at..Min(at + block, |bytes|)]
    {
      BlockReply(bytes, at, block);
    }
    BlocksAddUp((at: nat) => BlockBody(bytes, at, block), bytes, 0, block);
  }
}
