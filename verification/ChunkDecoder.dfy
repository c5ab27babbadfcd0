/** The incremental decoder of `aws-chunked` payloads (AWS Signature Version 4, "Transferring Payload in
    Multiple Chunks"): its specification as a function of the buffered bytes, and the class that
    implements it. HMAC and SHA-256 are arbitrary functions. */
module ChunkDecoder {
  import opened ByteStrings
  import opened Utf8

  const CRLF: Bytes := [13, 10]
  const SEMICOLON: byte := 59

  /** Everything a chunk signature depends on besides its predecessor and its data. */
  datatype Signer = Signer(
    hmac: (Bytes, Bytes) -> Bytes, sha256: Bytes -> Bytes,
    key: Bytes, scope: Bytes, amzDate: Bytes)

  datatype Error = MalformedPayload | SignatureMismatch

  datatype State = ReadingHeader | ReadingChunk(remaining: nat) | ReadingChunkTrailer | Done

  /** The fields of the decoder that change. */
  datatype Decoder = Decoder(
    state: State, buf: Bytes, prev: Bytes, pending: Bytes, chunkData: Bytes, finished: bool)

  function Start(seed: Bytes): Decoder {
    Decoder(ReadingHeader, [], seed, [], [], false)
  }

  // ---- signatures ----

  function StringToSign(s: Signer, prev: Bytes, data: Bytes): Bytes {
    Ascii("AWS4-HMAC-SHA256-PAYLOAD") + [10] + s.amzDate + [10] + s.scope + [10] + prev + [10]
      + Hex(s.sha256([])) + [10] + Hex(s.sha256(data))
  }

  function Signature(s: Signer, prev: Bytes, data: Bytes): (sig: Bytes)
    ensures forall i :: 0 <= i < |sig| ==> 48 <= sig[i] <= 57 || 97 <= sig[i] <= 102
  {
    Hex(s.hmac(s.key, StringToSign(s, prev, data)))
  }

  /** Lower case of ASCII letters. No other character has a lower case made of hexadecimal digits, so
      comparisons with a printed MAC come out as with `str::to_lowercase`. */
  function Lower(b: Bytes): (r: Bytes)
    ensures |r| == |b|
  {
    seq(|b|, i requires 0 <= i < |b| => if 65 <= b[i] <= 90 then b[i] + 32 else b[i])
  }

  lemma LowerSignature(s: Signer, prev: Bytes, data: Bytes)
    ensures Lower(Signature(s, prev, data)) == Signature(s, prev, data)
  {}

  predicate Verifies(s: Signer, prev: Bytes, data: Bytes, sig: Bytes) {
    Signature(s, prev, data) == Lower(sig)
  }

  /** The fields of the string to sign, one a line. */
  function SignedFields(s: Signer, prev: Bytes, data: Bytes): seq<Bytes> {
    [Ascii("AWS4-HMAC-SHA256-PAYLOAD"), s.amzDate, s.scope, prev, Hex(s.sha256([])), Hex(s.sha256(data))]
  }

  /** No value that a chunk signature depends on holds a line feed. */
  predicate OneLine(s: Signer, prev: Bytes) {
    10 !in s.amzDate && 10 !in s.scope && 10 !in prev
  }

  lemma JoinFront(a: Bytes, rest: seq<Bytes>, sep: byte)
    requires rest != []
    ensures Join([a] + rest, sep) == a + [sep] + Join(rest, sep)
  {
    assert ([a] + rest)[1..] == rest;
  }

  lemma StringToSignJoins(s: Signer, prev: Bytes, data: Bytes)
    ensures StringToSign(s, prev, data) == Join(SignedFields(s, prev, data), 10)
  {
    JoinSix(Ascii("AWS4-HMAC-SHA256-PAYLOAD"), s.amzDate, s.scope, prev, Hex(s.sha256([])), Hex(s.sha256(data)));
  }

  lemma JoinSix(a: Bytes, b: Bytes, c: Bytes, d: Bytes, e: Bytes, f: Bytes)
    ensures Join([a, b, c, d, e, f], 10) == a + [10] + b + [10] + c + [10] + d + [10] + e + [10] + f
  {
    assert [a, b, c, d, e, f] == [a] + [b, c, d, e, f];
    assert [b, c, d, e, f] == [b] + [c, d, e, f] && [c, d, e, f] == [c] + [d, e, f];
    JoinFront(a, [b, c, d, e, f], 10);
    JoinFront(b, [c, d, e, f], 10);
    JoinFront(c, [d, e, f], 10);
    assert [d, e, f] == [d] + [e, f] && [e, f] == [e] + [f];
    JoinFront(d, [e, f], 10);
    JoinFront(e, [f], 10);
    assert Join([f], 10) == f;
  }

  /** What a signature covers: line by line the algorithm, the date, the scope, the predecessor, the hash of nothing,
      and the hash of the chunk's data. */
  lemma StringToSignLines(s: Signer, prev: Bytes, data: Bytes)
    requires OneLine(s, prev)
    ensures Split(StringToSign(s, prev, data), 10)
      == [Ascii("AWS4-HMAC-SHA256-PAYLOAD"), s.amzDate, s.scope, prev, Hex(s.sha256([])), Hex(s.sha256(data))]
  {
    StringToSignJoins(s, prev, data);
    var f := SignedFields(s, prev, data);
    forall i | 0 <= i < |f|
      ensures 10 !in f[i]
    {
      if i == 0 { AlgorithmIsOneLine(); }
    }
    SplitJoin(f, 10);
  }

  /** Lines end in carriage return and line feed, and fields in semicolons. */
  lemma Separators()
    ensures CRLF == Ascii("\r\n") && [SEMICOLON] == Ascii(";")
  {}

  lemma AlgorithmIsOneLine()
    ensures 10 !in Ascii("AWS4-HMAC-SHA256-PAYLOAD")
  {}

  /** Neither hash maps two inputs to one output. */
  ghost predicate CollisionFree(s: Signer) {
    && (forall x, y :: s.sha256(x) == s.sha256(y) ==> x == y)
    && (forall x, y :: s.hmac(s.key, x) == s.hmac(s.key, y) ==> x == y)
  }

  /** Without collisions a signature belongs to one predecessor and one chunk. */
  lemma SignatureInjective(s: Signer, p: Bytes, x: Bytes, q: Bytes, y: Bytes)
    requires CollisionFree(s) && OneLine(s, p) && OneLine(s, q)
    ensures Signature(s, p, x) == Signature(s, q, y) <==> p == q && x == y
  {
    if Signature(s, p, x) == Signature(s, q, y) {
      HexInjective(s.hmac(s.key, StringToSign(s, p, x)), s.hmac(s.key, StringToSign(s, q, y)));
      StringToSignLines(s, p, x);
      StringToSignLines(s, q, y);
      var f, g := Split(StringToSign(s, p, x), 10), Split(StringToSign(s, q, y), 10);
      assert f[3] == p && f[5] == Hex(s.sha256(x)) && g[3] == q && g[5] == Hex(s.sha256(y));
      HexInjective(s.sha256(x), s.sha256(y));
    }
  }

  lemma LowerDigit(c: byte, d: nat)
    requires d < 16
    ensures HexValue(c) == Some(d) <==> (if 65 <= c <= 90 then c + 32 else c) == HexDigit(d)
  {}

  /** A text, in either case, is the printed form of `b` if and only if decoding it gives `b`. */
  lemma {:induction false} LowerIsHexIff(sig: Bytes, b: Bytes)
    ensures Lower(sig) == Hex(b) <==> Unhex(sig) == Some(b)
    decreases |b|
  {
    if b == [] {
      assert Lower(sig) == [] <==> sig == [];
      assert |sig| >= 2 ==> Unhex(sig) != Some([]);
    } else if |sig| < 2 {
      assert |Hex(b)| >= 2 && |Lower(sig)| < 2;
    } else {
      LowerIsHexIff(sig[2..], b[1..]);
      LowerIsHexStep(sig, b);
    }
  }

  lemma TwoByTwo(x: Bytes, y: Bytes)
    requires |x| >= 2 && |y| >= 2
    ensures x == y <==> x[0] == y[0] && x[1] == y[1] && x[2..] == y[2..]
  {
    assert x == [x[0], x[1]] + x[2..] && y == [y[0], y[1]] + y[2..];
  }

  lemma LowerTail(sig: Bytes)
    requires |sig| >= 2
    ensures Lower(sig)[2..] == Lower(sig[2..])
  {}

  lemma LowerIsHexStep(sig: Bytes, b: Bytes)
    requires |sig| >= 2 && b != []
    requires Lower(sig[2..]) == Hex(b[1..]) <==> Unhex(sig[2..]) == Some(b[1..])
    ensures Lower(sig) == Hex(b) <==> Unhex(sig) == Some(b)
  {
    var hi, lo := b[0] as nat / 16, b[0] as nat % 16;
    LowerDigit(sig[0], hi);
    LowerDigit(sig[1], lo);
    LowerTail(sig);
    TwoByTwo(Lower(sig), Hex(b));
    assert Hex(b)[2..] == Hex(b[1..]);
    UnhexStep(sig, b, hi, lo);
  }

  lemma TwoDigitsIff(x: nat, y: nat, c: byte)
    requires x < 16 && y < 16
    ensures (16 * x + y) as byte == c <==> x == c as nat / 16 && y == c as nat % 16
  {}

  lemma FrontIff(c: byte, rest: Bytes, b: Bytes)
    requires b != []
    ensures [c] + rest == b <==> c == b[0] && rest == b[1..]
  {
    assert b == [b[0]] + b[1..];
    if [c] + rest == b { assert ([c] + rest)[1..] == rest; }
  }

  lemma UnhexStep(sig: Bytes, b: Bytes, hi: nat, lo: nat)
    requires |sig| >= 2 && b != [] && hi == b[0] as nat / 16 && lo == b[0] as nat % 16
    ensures Unhex(sig) == Some(b)
      <==> HexValue(sig[0]) == Some(hi) && HexValue(sig[1]) == Some(lo) && Unhex(sig[2..]) == Some(b[1..])
  {
    if HexValue(sig[0]).Some? && HexValue(sig[1]).Some? && Unhex(sig[2..]).Some? {
      var x, y := HexValue(sig[0]).value, HexValue(sig[1]).value;
      TwoDigitsIff(x, y, b[0]);
      FrontIff((16 * x + y) as byte, Unhex(sig[2..]).value, b);
    }
  }

  /** A chunk verifies if and only if its signature is the MAC of the string to sign, in hexadecimal digits of
      either case. */
  lemma VerifiesIff(s: Signer, prev: Bytes, data: Bytes, sig: Bytes)
    ensures Verifies(s, prev, data, sig) <==> Unhex(sig) == Some(s.hmac(s.key, StringToSign(s, prev, data)))
  {
    LowerIsHexIff(sig, s.hmac(s.key, StringToSign(s, prev, data)));
  }

  /** One signature fits one predecessor and one chunk. */
  lemma OneChunkFits(s: Signer, p: Bytes, x: Bytes, q: Bytes, y: Bytes, sig: Bytes)
    requires CollisionFree(s) && OneLine(s, p) && OneLine(s, q)
    requires Verifies(s, p, x, sig) && Verifies(s, q, y, sig)
    ensures p == q && x == y
  {
    SignatureInjective(s, p, x, q, y);
  }

  // ---- chunk headers ----

  datatype Header =
    | NeedMore
    | Malformed
    | Header(size: nat, signature: Bytes, consumed: nat)

  function SIGNATURE_FIELD(): Bytes {
    Ascii("chunk-signature=")
  }

  /** The first field that starts with `chunk-signature=`, without that prefix; empty if there is none. */
  function FindSignature(fields: seq<Bytes>): Bytes {
    if fields == [] then []
    else if SIGNATURE_FIELD() <= fields[0] then fields[0][|SIGNATURE_FIELD()|..]
    else FindSignature(fields[1..])
  }

  /** `parse_chunk_header`. A line that is empty or not UTF-8 is treated as one still to be completed. */
  function ParseHeader(buf: Bytes): (h: Header)
    ensures h.Header? ==> 2 <= h.consumed <= |buf|
  {
    match Find(buf, CRLF)
    case None => NeedMore
    case Some(pos) =>
      var line := buf[..pos];
      if !IsUtf8(line) || line == [] then NeedMore
      else
        var fields := Split(line, SEMICOLON);
        match ParseNumber(fields[0], 16)
        case None => Malformed
        case Some(size) => Header(size, FindSignature(fields), pos + 2)
  }

  /** The header depends on the buffer up to its first line end. */
  lemma ParseHeaderLocal(a: Bytes, b: Bytes, pos: nat)
    requires Find(a, CRLF) == Some(pos) && Find(b, CRLF) == Some(pos) && a[..pos] == b[..pos]
    ensures ParseHeader(a) == ParseHeader(b)
  {}

  /** Once the buffer holds a whole line, more bytes behind it change nothing. */
  lemma ParseHeaderStable(a: Bytes, b: Bytes)
    requires Find(a, CRLF).Some?
    ensures ParseHeader(a + b) == ParseHeader(a)
  {
    var pos := Find(a, CRLF).value;
    assert (a + b)[..pos + 2] == a[..pos + 2] && (a + b)[..pos] == a[..pos];
    FindStable(a, a + b, CRLF, pos);
    ParseHeaderLocal(a + b, a, pos);
  }

  /** No header is read as long as there is no line end, or where the first line is empty or not text. */
  lemma NeedMoreIff(buf: Bytes)
    ensures ParseHeader(buf).NeedMore? <==>
      Find(buf, CRLF).None? || buf[..Find(buf, CRLF).value] == [] || !IsUtf8(buf[..Find(buf, CRLF).value])
  {}

  /** `fields` are those of a header line that stands alone in front of `rest`. */
  ghost predicate IsHeaderLine(fields: seq<Bytes>, line: Bytes, rest: Bytes) {
    && fields != [] && (forall i :: 0 <= i < |fields| ==> SEMICOLON !in fields[i])
    && line == Join(fields, SEMICOLON) && line != [] && IsUtf8(line)
    && Find(line + CRLF + rest, CRLF) == Some(|line|)
  }

  lemma HeaderFields(fields: seq<Bytes>, line: Bytes, rest: Bytes)
    requires IsHeaderLine(fields, line, rest)
    ensures ParseHeader(line + CRLF + rest) ==
      match ParseNumber(fields[0], 16)
      case None => Malformed
      case Some(size) => Header(size, FindSignature(fields), |line| + 2)
  {
    assert (line + CRLF + rest)[..|line|] == line;
    SplitJoin(fields, SEMICOLON);
  }

  /** Field `k` is the first that holds a signature, namely `sig`. */
  ghost predicate SignatureAt(fields: seq<Bytes>, k: nat, sig: Bytes) {
    && k < |fields| && fields[k] == Ascii("chunk-signature=") + sig
    && forall i :: 0 <= i < k ==> !(Ascii("chunk-signature=") <= fields[i])
  }

  lemma {:induction false} SignatureFound(fields: seq<Bytes>, k: nat, sig: Bytes)
    requires SignatureAt(fields, k, sig)
    ensures FindSignature(fields) == sig
  {
    if k > 0 { SignatureFound(fields[1..], k - 1, sig); }
  }

  lemma {:induction false} SignatureMissing(fields: seq<Bytes>)
    requires forall i :: 0 <= i < |fields| ==> !(Ascii("chunk-signature=") <= fields[i])
    ensures FindSignature(fields) == []
  {
    if fields != [] { SignatureMissing(fields[1..]); }
  }

  /** A header line with any extensions: the first field is the size, and the first field that begins with
      `chunk-signature=` holds the signature, wherever it stands. */
  lemma HeaderWithExtensions(fields: seq<Bytes>, k: nat, sig: Bytes, rest: Bytes)
    requires IsHeaderLine(fields, Join(fields, SEMICOLON), rest) && SignatureAt(fields, k, sig)
    ensures var line := Join(fields, SEMICOLON);
      ParseHeader(line + CRLF + rest) ==
        match ParseNumber(fields[0], 16)
        case None => Malformed
        case Some(size) => Header(size, sig, |line| + 2)
  {
    HeaderFields(fields, Join(fields, SEMICOLON), rest);
    SignatureFound(fields, k, sig);
  }

  /** Without a signature field the signature is empty. */
  lemma HeaderWithoutSignature(fields: seq<Bytes>, rest: Bytes)
    requires IsHeaderLine(fields, Join(fields, SEMICOLON), rest)
    requires forall i :: 0 <= i < |fields| ==> !(Ascii("chunk-signature=") <= fields[i])
    ensures var line := Join(fields, SEMICOLON);
      ParseHeader(line + CRLF + rest) ==
        match ParseNumber(fields[0], 16)
        case None => Malformed
        case Some(size) => Header(size, [], |line| + 2)
  {
    HeaderFields(fields, Join(fields, SEMICOLON), rest);
    SignatureMissing(fields);
  }

  // ---- the decoder as a function ----

  datatype Turn =
    | Stop
    | Go(next: Decoder, out: Bytes)
    | Fail(next: Decoder, out: Bytes, error: Error)

  /** `verify_chunk`, then what follows on success. */
  function Verified(s: Signer, d: Decoder, data: Bytes, state: State, out: Bytes): Turn {
    if Verifies(s, d.prev, data, d.pending) then Go(d.(prev := d.pending, state := state), out)
    else Fail(d, out, SignatureMismatch)
  }

  /** What the parsed header leads to: a chunk to read, or at size 0 the end, whose signature is checked right away. */
  function AfterHeader(s: Signer, d: Decoder, h: Header): Turn
    requires h.Header? ==> h.consumed <= |d.buf|
  {
    match h
    case NeedMore => Stop
    case Malformed => Fail(d, [], MalformedPayload)
    case Header(size, sig, consumed) =>
      var e := d.(pending := sig, buf := d.buf[consumed..]);
      if size == 0 then Verified(s, e.(state := Done, finished := true), [], Done, [])
      else Go(e.(state := ReadingChunk(size)), [])
  }

  /** One turn of the loop in `push`. */
  function OneTurn(s: Signer, d: Decoder): Turn {
    match d.state
    case ReadingHeader => AfterHeader(s, d, ParseHeader(d.buf))
    case ReadingChunk(remaining) =>
      if d.buf == [] then Stop
      else
        var take := Min(remaining, |d.buf|);
        var chunk := d.buf[..take];
        var e := d.(buf := d.buf[take..], chunkData := d.chunkData + chunk);
        if remaining == take then Verified(s, e.(chunkData := []), e.chunkData, ReadingChunkTrailer, chunk)
        else Go(e.(state := ReadingChunk(remaining - take)), chunk)
    case ReadingChunkTrailer =>
      if |d.buf| < 2 then Stop
      else if d.buf[..2] == CRLF then Go(d.(buf := d.buf[2..], state := ReadingHeader), [])
      else Fail(d, [], MalformedPayload)
    case Done => Stop
  }

  /** A chunk being read has bytes to come, chunk data is held only then, and `finished` tells whether the
      final chunk was read. */
  predicate Valid(d: Decoder) {
    && (d.finished <==> d.state.Done?)
    && (if d.state.ReadingChunk? then d.state.remaining > 0 else d.chunkData == [])
  }

  /** Every turn of the loop takes bytes off the buffer, so the loop ends. */
  lemma TurnProgress(s: Signer, d: Decoder)
    requires Valid(d)
    ensures OneTurn(s, d).Go? ==> Valid(OneTurn(s, d).next) && |OneTurn(s, d).next.buf| < |d.buf|
  {}

  /** What a number of pushes have led to: the decoder, the bytes delivered, and the first error. */
  datatype Outcome = Outcome(decoder: Decoder, out: Bytes, error: Option<Error>)

  function Prepend(out: Bytes, o: Outcome): Outcome {
    o.(out := out + o.out)
  }

  /** The loop of `push`. */
  function Drain(s: Signer, d: Decoder): (o: Outcome)
    requires Valid(d)
    ensures o.error.None? ==> Valid(o.decoder)
    decreases |d.buf|
  {
    match OneTurn(s, d)
    case Stop => Outcome(d, [], None)
    case Fail(next, out, error) => Outcome(next, out, Some(error))
    case Go(next, out) =>
      TurnProgress(s, d);
      Prepend(out, Drain(s, next))
  }

  function Fed(d: Decoder, data: Bytes): Decoder {
    d.(buf := d.buf + data)
  }

  function Push(s: Signer, d: Decoder, data: Bytes): (o: Outcome)
    requires Valid(d)
    ensures o.error.None? ==> Valid(o.decoder)
  {
    if d.finished then Outcome(d, [], None) else Drain(s, Fed(d, data))
  }

  /** A stream that arrives in pieces, up to the first error. */
  function PushAll(s: Signer, d: Decoder, pieces: seq<Bytes>): (o: Outcome)
    requires Valid(d)
    ensures o.error.None? ==> Valid(o.decoder)
    decreases |pieces|
  {
    if pieces == [] then Outcome(d, [], None)
    else
      var first := Push(s, d, pieces[0]);
      if first.error.Some? then first else Prepend(first.out, PushAll(s, first.decoder, pieces[1..]))
  }

  // ---- split independence ----

  /** Two outcomes a client cannot tell apart: the same bytes and verdict, the same signature state, and,
      unless the stream has failed or ended, the same position. */
  ghost predicate Same(a: Outcome, b: Outcome) {
    && a.out == b.out && a.error == b.error
    && a.decoder.finished == b.decoder.finished
    && a.decoder.prev == b.decoder.prev && a.decoder.pending == b.decoder.pending
    && (a.error.None? ==> a.decoder.state == b.decoder.state && a.decoder.chunkData == b.decoder.chunkData)
    && (a.error.None? && !a.decoder.finished ==> a.decoder.buf == b.decoder.buf)
  }

  lemma SamePrepend(x: Bytes, a: Outcome, b: Outcome)
    requires Same(a, b)
    ensures Same(Prepend(x, a), Prepend(x, b))
  {}

  lemma PrependTwice(x: Bytes, y: Bytes, a: Outcome)
    ensures Prepend(x, Prepend(y, a)) == Prepend(x + y, a)
  {
    Associative(x, y, a.out);
  }

  /** The chunk being read goes on beyond the buffer. */
  predicate Partial(d: Decoder) {
    d.state.ReadingChunk? && |d.buf| < d.state.remaining
  }

  /** Bytes behind the buffer do not change a turn, unless it reads part of a chunk. */
  ghost predicate Stable(s: Signer, d: Decoder, y: Bytes) {
    match OneTurn(s, d)
    case Stop => true
    case Go(next, out) => OneTurn(s, Fed(d, y)) == Go(Fed(next, y), out)
    case Fail(next, out, error) => OneTurn(s, Fed(d, y)) == Fail(Fed(next, y), out, error)
  }

  lemma AfterHeaderStable(s: Signer, d: Decoder, y: Bytes, h: Header)
    requires h.Header? ==> h.consumed <= |d.buf| && (d.buf + y)[h.consumed..] == d.buf[h.consumed..] + y
    ensures match AfterHeader(s, d, h)
      case Stop => true
      case Go(next, out) => AfterHeader(s, Fed(d, y), h) == Go(Fed(next, y), out)
      case Fail(next, out, error) => AfterHeader(s, Fed(d, y), h) == Fail(Fed(next, y), out, error)
  {}

  lemma HeaderStable(s: Signer, d: Decoder, y: Bytes)
    requires d.state.ReadingHeader?
    ensures Stable(s, d, y)
  {
    var h := ParseHeader(d.buf);
    if !h.NeedMore? {
      ParseHeaderStable(d.buf, y);
      if h.Header? { assert (d.buf + y)[h.consumed..] == d.buf[h.consumed..] + y; }
      AfterHeaderStable(s, d, y, h);
    }
  }

  lemma ChunkStable(s: Signer, d: Decoder, y: Bytes)
    requires Valid(d) && d.state.ReadingChunk? && !Partial(d)
    ensures Stable(s, d, y)
  {
    var r := d.state.remaining;
    assert (d.buf + y)[..r] == d.buf[..r];
    assert (d.buf + y)[r..] == d.buf[r..] + y;
  }

  lemma TrailerStable(s: Signer, d: Decoder, y: Bytes)
    requires d.state.ReadingChunkTrailer?
    ensures Stable(s, d, y)
  {
    if |d.buf| >= 2 {
      assert (d.buf + y)[..2] == d.buf[..2];
      assert (d.buf + y)[2..] == d.buf[2..] + y;
    }
  }

  lemma TurnStable(s: Signer, d: Decoder, y: Bytes)
    requires Valid(d) && !Partial(d)
    ensures Stable(s, d, y)
  {
    match d.state
    case ReadingHeader => HeaderStable(s, d, y);
    case ReadingChunk(_) => ChunkStable(s, d, y);
    case ReadingChunkTrailer => TrailerStable(s, d, y);
    case Done =>
  }

  /** The turn that reads `chunk` and leaves `rest`. */
  function ChunkTurn(s: Signer, d: Decoder, remaining: nat, chunk: Bytes, rest: Bytes): Turn
    requires |chunk| <= remaining
  {
    var e := d.(buf := rest, chunkData := d.chunkData + chunk);
    if |chunk| == remaining then Verified(s, e.(chunkData := []), e.chunkData, ReadingChunkTrailer, chunk)
    else Go(e.(state := ReadingChunk(remaining - |chunk|)), chunk)
  }

  lemma ChunkTurns(s: Signer, d: Decoder, take: nat)
    requires d.state.ReadingChunk? && d.buf != [] && take == Min(d.state.remaining, |d.buf|)
    ensures OneTurn(s, d) == ChunkTurn(s, d, d.state.remaining, d.buf[..take], d.buf[take..])
  {}

  /** Reading a part of a chunk now and the rest later, or all at once, comes to the same. */
  lemma TwoTurnsAreOne(s: Signer, d: Decoder, r: nat, next: Decoder, x: Bytes, y: Bytes, rest: Bytes)
    requires |x| + |y| <= r && y != []
    requires d.state == ReadingChunk(r)
    requires next.(buf := d.buf) == d.(state := ReadingChunk(r - |x|), chunkData := d.chunkData + x)
    ensures var whole, last := ChunkTurn(s, d, r, x + y, rest), ChunkTurn(s, next, r - |x|, y, rest);
      && !whole.Stop? && (whole.Fail? <==> last.Fail?)
      && whole.next.(state := last.next.state) == last.next && whole.out == x + last.out
      && (whole.Fail? ==> whole.error == last.error)
      && (whole.Go? ==> whole.next == last.next)
  {
    Associative(d.chunkData, x, y);
  }

  lemma TurnReads(s: Signer, d: Decoder, x: Bytes, rest: Bytes)
    requires d.state.ReadingChunk? && x != [] && d.buf == x + rest && |x| == Min(d.state.remaining, |d.buf|)
    ensures OneTurn(s, d) == ChunkTurn(s, d, d.state.remaining, x, rest)
  {
    ChunkTurns(s, d, |x|);
    assert d.buf[..|x|] == x && d.buf[|x|..] == rest;
  }

  lemma PartTurn(s: Signer, d: Decoder)
    requires Valid(d) && Partial(d) && d.buf != []
    ensures OneTurn(s, d) == Go(
      d.(state := ReadingChunk(d.state.remaining - |d.buf|), buf := [], chunkData := d.chunkData + d.buf), d.buf)
  {
    assert d.buf + [] == d.buf;
    TurnReads(s, d, d.buf, []);
  }

  /** Two turns that agree but for `x` in front are followed by the same. */
  lemma SameAfter(s: Signer, d: Decoder, e: Decoder, x: Bytes)
    requires Valid(d) && Valid(e)
    requires var whole, last := OneTurn(s, d), OneTurn(s, e);
      && !whole.Stop? && !last.Stop? && (whole.Fail? <==> last.Fail?)
      && whole.next.(state := last.next.state) == last.next && whole.out == x + last.out
      && (whole.Fail? ==> whole.error == last.error)
      && (whole.Go? ==> whole.next == last.next)
    ensures Same(Drain(s, d), Prepend(x, Drain(s, e)))
  {
    var last := OneTurn(s, e);
    if last.Go? { PrependTwice(x, last.out, Drain(s, last.next)); }
  }

  lemma PartialChunk(s: Signer, d: Decoder, y: Bytes)
    requires Valid(d) && Partial(d) && d.buf != [] && y != []
    ensures OneTurn(s, d).Go? && OneTurn(s, d).out == d.buf && OneTurn(s, d).next.buf == []
    ensures Same(Drain(s, Fed(d, y)), Prepend(d.buf, Drain(s, Fed(OneTurn(s, d).next, y))))
  {
    var r := d.state.remaining;
    PartTurn(s, d);
    var next := OneTurn(s, d).next;
    var k := Min(r - |d.buf|, |y|);
    var y1, rest := y[..k], y[k..];
    assert y == y1 + rest && Fed(next, y).buf == y;
    Associative(d.buf, y1, rest);
    TurnReads(s, Fed(d, y), d.buf + y1, rest);
    TurnReads(s, Fed(next, y), y1, rest);
    TwoTurnsAreOne(s, Fed(d, y), r, Fed(next, y), d.buf, y1, rest);
    SameAfter(s, Fed(d, y), Fed(next, y), d.buf);
  }

  /** What a further piece does to an outcome. */
  function Then(s: Signer, o: Outcome, y: Bytes): Outcome
    requires o.error.None? ==> Valid(o.decoder)
  {
    if o.error.Some? then o else Prepend(o.out, Push(s, o.decoder, y))
  }

  lemma ThenPrepend(s: Signer, x: Bytes, o: Outcome, y: Bytes)
    requires o.error.None? ==> Valid(o.decoder)
    ensures Then(s, Prepend(x, o), y) == Prepend(x, Then(s, o, y))
  {
    if o.error.None? { PrependTwice(x, o.out, Push(s, o.decoder, y)); }
  }

  lemma AbsorbAtRest(s: Signer, d: Decoder, y: Bytes)
    requires Valid(d) && OneTurn(s, d).Stop?
    ensures Same(Drain(s, Fed(d, y)), Then(s, Drain(s, d), y))
  {
    if !d.finished {
      assert [] + Drain(s, Fed(d, y)).out == Drain(s, Fed(d, y)).out;
    }
  }

  lemma AbsorbPartial(s: Signer, d: Decoder, y: Bytes)
    requires Valid(d) && Partial(d) && d.buf != []
    ensures Same(Drain(s, Fed(d, y)), Then(s, Drain(s, d), y))
  {
    var next := OneTurn(s, d).next;
    assert d.buf[..|d.buf|] == d.buf;
    assert next.buf == [] && OneTurn(s, next).Stop?;
    assert Drain(s, next) == Outcome(next, [], None);
    assert Drain(s, d) == Outcome(next, d.buf, None) by { assert d.buf + [] == d.buf; }
    if y == [] {
      assert Fed(d, y) == d && Fed(next, y) == next;
    } else {
      PartialChunk(s, d, y);
    }
  }

  /** Draining two pieces one after the other is draining them at once. */
  lemma {:induction false} Absorb(s: Signer, d: Decoder, y: Bytes)
    requires Valid(d)
    ensures Same(Drain(s, Fed(d, y)), Then(s, Drain(s, d), y))
    decreases |d.buf|
  {
    if OneTurn(s, d).Stop? {
      AbsorbAtRest(s, d, y);
    } else if Partial(d) {
      AbsorbPartial(s, d, y);
    } else {
      TurnStable(s, d, y);
      if OneTurn(s, d).Go? {
        var next, out := OneTurn(s, d).next, OneTurn(s, d).out;
        TurnProgress(s, d);
        Absorb(s, next, y);
        SamePrepend(out, Drain(s, Fed(next, y)), Then(s, Drain(s, next), y));
        ThenPrepend(s, out, Drain(s, next), y);
      }
    }
  }

  /** Between pushes the loop has nothing to do. */
  lemma {:induction false} DrainRests(s: Signer, d: Decoder)
    requires Valid(d) && Drain(s, d).error.None?
    ensures OneTurn(s, Drain(s, d).decoder).Stop?
    decreases |d.buf|
  {
    if OneTurn(s, d).Go? {
      TurnProgress(s, d);
      DrainRests(s, OneTurn(s, d).next);
    }
  }

  /** Nothing in the buffer can be read yet. */
  predicate AtRest(d: Decoder) {
    match d.state
    case ReadingHeader => ParseHeader(d.buf).NeedMore?
    case ReadingChunk(_) => d.buf == []
    case ReadingChunkTrailer => |d.buf| < 2
    case Done => true
  }

  /** A push that reports no error has read everything there was to read: it waits only for a header line that is
      not complete, for data, or for a line end. */
  lemma PushRests(s: Signer, d: Decoder, data: Bytes)
    requires Valid(d) && Push(s, d, data).error.None?
    ensures AtRest(Push(s, d, data).decoder)
  {
    if !d.finished {
      DrainRests(s, Fed(d, data));
      StopIsRest(s, Drain(s, Fed(d, data)).decoder);
    }
  }

  lemma StopIsRest(s: Signer, d: Decoder)
    ensures OneTurn(s, d).Stop? <==> AtRest(d)
  {}

  lemma PushTwice(s: Signer, d: Decoder, x: Bytes, y: Bytes)
    requires Valid(d)
    ensures Same(Push(s, d, x + y), Then(s, Push(s, d, x), y))
  {
    if d.finished {
      assert Push(s, d, x) == Outcome(d, [], None);
    } else {
      Absorb(s, Fed(d, x), y);
      Associative(d.buf, x, y);
      assert Fed(Fed(d, x), y) == Fed(d, x + y);
    }
  }

  /** Pushing a stream in pieces is pushing it at once. */
  lemma {:induction false} PushAllIsPush(s: Signer, d: Decoder, pieces: seq<Bytes>)
    requires Valid(d) && OneTurn(s, d).Stop?
    ensures Same(PushAll(s, d, pieces), Push(s, d, Concat(pieces)))
    decreases |pieces|
  {
    if pieces == [] {
      assert Fed(d, []) == d;
    } else {
      var first := Push(s, d, pieces[0]);
      var rest := Concat(pieces[1..]);
      PushTwice(s, d, pieces[0], rest);
      if first.error.None? {
        if !d.finished { DrainRests(s, Fed(d, pieces[0])); }
        PushAllIsPush(s, first.decoder, pieces[1..]);
        SamePrepend(first.out, PushAll(s, first.decoder, pieces[1..]), Push(s, first.decoder, rest));
      }
    }
  }

  /** Split independence: however the network cuts the bytes of a stream, the bytes delivered, the verdict,
      the finished flag and the signature state are the same, up to the first error. */
  lemma SplitIndependence(s: Signer, seed: Bytes, a: seq<Bytes>, b: seq<Bytes>)
    requires Concat(a) == Concat(b)
    ensures Same(PushAll(s, Start(seed), a), PushAll(s, Start(seed), b))
  {
    assert OneTurn(s, Start(seed)).Stop?;
    PushAllIsPush(s, Start(seed), a);
    PushAllIsPush(s, Start(seed), b);
  }

  // ---- after an error ----

  /** What a decoder is left as by its first error. */
  predicate LeftBy(s: Signer, d: Decoder, error: Error) {
    && Valid(d)
    && match error
       case MalformedPayload => OneTurn(s, d) == Fail(d, [], MalformedPayload) && !d.state.ReadingChunk?
       case SignatureMismatch => d.chunkData == [] && (d.finished || d.state.ReadingChunk?)
  }

  lemma {:induction false} DrainError(s: Signer, d: Decoder)
    requires Valid(d) && Drain(s, d).error.Some?
    ensures LeftBy(s, Drain(s, d).decoder, Drain(s, d).error.value)
    decreases |d.buf|
  {
    if OneTurn(s, d).Go? {
      TurnProgress(s, d);
      DrainError(s, OneTurn(s, d).next);
    }
  }

  /** A malformed payload poisons the decoder: every later push reports it again and delivers nothing. */
  lemma MalformedIsFinal(s: Signer, d: Decoder, x: Bytes, y: Bytes)
    requires Valid(d) && Push(s, d, x).error == Some(MalformedPayload)
    ensures Valid(Push(s, d, x).decoder)
    ensures var again := Push(s, Push(s, d, x).decoder, y); again.error == Some(MalformedPayload) && again.out == []
  {
    DrainError(s, Fed(d, x));
    TurnStable(s, Push(s, d, x).decoder, y);
  }

  lemma PushIntoChunk(s: Signer, e: Decoder, y: Bytes)
    requires Valid(e) && e.state.ReadingChunk? && e.chunkData == []
    ensures var r, data, o := e.state.remaining, e.buf + y, Push(s, e, y);
      && (|data| < r ==> o.error == None && o.out == data)
      && (|data| >= r && !Verifies(s, e.prev, data[..r], e.pending) ==>
            o.error == Some(SignatureMismatch) && o.out == data[..r])
      && (|data| >= r && Verifies(s, e.prev, data[..r], e.pending) ==>
            o == Prepend(data[..r], Drain(s, Decoder(ReadingChunkTrailer, data[r..], e.pending, e.pending, [], false))))
  {
    var f, r := Fed(e, y), e.state.remaining;
    if f.buf != [] {
      var take := Min(r, |f.buf|);
      ChunkTurns(s, f, take);
      assert [] + f.buf[..take] == f.buf[..take];
      if |f.buf| < r {
        var next := OneTurn(s, f).next;
        assert f.buf[..|f.buf|] == f.buf && next.buf == [];
        assert Drain(s, next) == Outcome(next, [], None);
        assert f.buf + [] == f.buf;
      }
    }
  }

  /** A wrong signature does not poison the decoder, against the comment on `push`. After a failed final chunk
      every later push succeeds and delivers nothing. After another failed chunk the decoder takes what it has
      left, and what comes, for the same chunk again: it delivers those bytes, and fails again when there are
      enough of them and they do not verify either. */
  lemma MismatchIsNotFinal(s: Signer, d: Decoder, x: Bytes, y: Bytes)
    requires Valid(d) && Push(s, d, x).error == Some(SignatureMismatch)
    ensures Valid(Push(s, d, x).decoder)
    ensures var e := Push(s, d, x).decoder;
      var data, again := e.buf + y, Push(s, e, y);
      && (e.finished ==> again == Outcome(e, [], None))
      && (!e.finished ==>
            e.state.ReadingChunk? && e.chunkData == [] && var r := e.state.remaining;
            && (|data| < r ==> again.error == None && again.out == data)
            && (|data| >= r && !Verifies(s, e.prev, data[..r], e.pending) ==>
                  again.error == Some(SignatureMismatch) && again.out == data[..r]))
  {
    DrainError(s, Fed(d, x));
    var e := Push(s, d, x).decoder;
    if !e.finished { PushIntoChunk(s, e, y); }
  }

  /** The bytes that a decoder, after a failed chunk, would take for that chunk are not its data either. */
  predicate FailsAgain(s: Signer, e: Decoder, data: Bytes) {
    e.state.ReadingChunk? && |data| >= e.state.remaining
    && !Verifies(s, e.prev, data[..e.state.remaining], e.pending)
  }

  /** Exactly when a push after a wrong signature succeeds, unless what it completes happens to verify: if the
      failed chunk was the final one, or if the bytes left and pushed are fewer than the last part of it. */
  lemma PushAfterMismatchIff(s: Signer, d: Decoder, x: Bytes, y: Bytes)
    requires Valid(d) && Push(s, d, x).error == Some(SignatureMismatch)
    requires var e := Push(s, d, x).decoder;
      e.state.ReadingChunk? && |e.buf + y| >= e.state.remaining ==> FailsAgain(s, e, e.buf + y)
    ensures Valid(Push(s, d, x).decoder)
    ensures var e := Push(s, d, x).decoder;
      Push(s, e, y).error.None? <==>
        e.finished || (e.state.ReadingChunk? && |e.buf + y| < e.state.remaining)
  {
    MismatchIsNotFinal(s, d, x, y);
  }

  // ---- headers that never come to be ----

  /** The first line in the buffer is empty or not UTF-8. */
  predicate Stalled(d: Decoder) {
    d.state.ReadingHeader? && !d.finished
    && Find(d.buf, CRLF).Some?
    && var line := d.buf[..Find(d.buf, CRLF).value]; line == [] || !IsUtf8(line)
  }

  lemma StalledStays(s: Signer, d: Decoder, y: Bytes)
    requires Valid(d) && Stalled(d)
    ensures Stalled(Fed(d, y)) && OneTurn(s, Fed(d, y)).Stop?
  {
    var pos := Find(d.buf, CRLF).value;
    assert (d.buf + y)[..pos + 2] == d.buf[..pos + 2] && (d.buf + y)[..pos] == d.buf[..pos];
    FindStable(d.buf, d.buf + y, CRLF, pos);
  }

  /** Such a line is taken for one still to be completed, so the decoder waits for ever: whatever is pushed, in
      whatever pieces, it reports no error, delivers nothing and does not finish. */
  lemma {:induction false} StalledForEver(s: Signer, d: Decoder, pieces: seq<Bytes>)
    requires Valid(d) && Stalled(d)
    ensures PushAll(s, d, pieces) == Outcome(Fed(d, Concat(pieces)), [], None)
    decreases |pieces|
  {
    if pieces == [] {
      assert Fed(d, []) == d;
    } else {
      StalledStays(s, d, pieces[0]);
      StalledForEver(s, Fed(d, pieces[0]), pieces[1..]);
      Associative(d.buf, pieces[0], Concat(pieces[1..]));
      assert Fed(Fed(d, pieces[0]), Concat(pieces[1..])) == Fed(d, Concat(pieces));
    }
  }

  /** One line end too many after a chunk is enough. */
  lemma SurplusLineEnd(s: Signer, prev: Bytes, rest: Bytes)
    ensures Stalled(Decoder(ReadingHeader, CRLF + rest, prev, prev, [], false))
  {
    var buf := CRLF + rest;
    assert buf[0..2] == CRLF;
    FindIs(buf, CRLF, 0);
  }
}
