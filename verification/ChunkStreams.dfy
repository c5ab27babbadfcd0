/** What the chunk decoder accepts, and that it undoes the encoder. */
module ChunkStreams {
  import opened ByteStrings
  import opened Utf8
  import opened ChunkDecoder

  // ---- well-signed streams ----

  /** A complete chunk of a stream: its header line, the signature found there, its data. */
  datatype Frame = Frame(line: Bytes, signature: Bytes, data: Bytes)

  function Wire(f: Frame): Bytes {
    f.line + CRLF + f.data + CRLF
  }

  function WireOf(frames: seq<Frame>): Bytes {
    if frames == [] then [] else WireOf(frames[..|frames| - 1]) + Wire(frames[|frames| - 1])
  }

  function DataOf(frames: seq<Frame>): Bytes {
    if frames == [] then [] else DataOf(frames[..|frames| - 1]) + frames[|frames| - 1].data
  }

  function LastSignature(seed: Bytes, frames: seq<Frame>): Bytes {
    if frames == [] then seed else frames[|frames| - 1].signature
  }

  /** A header line that announces `size` bytes and their signature. */
  predicate Announces(line: Bytes, size: nat, sig: Bytes) {
    ParseHeader(line + CRLF) == Header(size, sig, |line| + 2)
  }

  /** The chunk's size is the declared one, and its signature is the MAC over its exact predecessor. */
  predicate Signed(s: Signer, prev: Bytes, f: Frame) {
    f.data != [] && Announces(f.line, |f.data|, f.signature) && Verifies(s, prev, f.data, f.signature)
  }

  /** The signatures of the chunks chain from the seed. */
  predicate Chained(s: Signer, seed: Bytes, frames: seq<Frame>) {
    frames == []
    || var init := frames[..|frames| - 1];
       Chained(s, seed, init) && Signed(s, LastSignature(seed, init), frames[|frames| - 1])
  }

  /** The wire up to the data of the last chunk, without the line end behind it. */
  function WireToData(frames: seq<Frame>): Bytes
    requires frames != []
  {
    var last := frames[|frames| - 1];
    WireOf(frames[..|frames| - 1]) + (last.line + CRLF + last.data)
  }

  /** The part of the wire that lies before the buffer. */
  function Read(d: Decoder, frames: seq<Frame>, line: Bytes): Bytes {
    match d.state
    case ReadingHeader => WireOf(frames)
    case ReadingChunk(_) => WireOf(frames) + (line + CRLF + d.chunkData)
    case ReadingChunkTrailer => if frames == [] then [] else WireToData(frames)
    case Done => WireOf(frames) + (line + CRLF)
  }

  /** The signatures and sizes a decoder holds are those of the verified chunks and of the header last read. */
  predicate Agrees(s: Signer, seed: Bytes, d: Decoder, frames: seq<Frame>, line: Bytes) {
    var last := LastSignature(seed, frames);
    match d.state
    case ReadingHeader => d.prev == last
    case ReadingChunk(remaining) => d.prev == last && Announces(line, |d.chunkData| + remaining, d.pending)
    case ReadingChunkTrailer => d.prev == last && frames != []
    case Done => d.prev == d.pending && Announces(line, 0, d.pending) && Verifies(s, last, [], d.pending)
  }

  /** A decoder started with `seed` has read all of `wire` and delivered `out`: every byte belongs to a
      verified chunk, to the chunk being read (whose header is `line`), to the final header, or is still
      in the buffer; delivered are the data of the verified chunks and the part of a chunk read so far. */
  ghost predicate Accounts(s: Signer, seed: Bytes, wire: Bytes, out: Bytes, d: Decoder,
                           frames: seq<Frame>, line: Bytes)
  {
    && Chained(s, seed, frames) && Agrees(s, seed, d, frames, line)
    && (if d.state.Done? then Read(d, frames, line) <= wire else wire == Read(d, frames, line) + d.buf)
    && (d.state.ReadingChunk? || d.chunkData == [])
    && out == DataOf(frames) + d.chunkData
  }

  lemma HeaderEnds(buf: Bytes)
    requires ParseHeader(buf).Header?
    ensures Find(buf, CRLF) == Some(ParseHeader(buf).consumed - 2)
  {}

  lemma CutOut(buf: Bytes, x: Bytes, pos: nat)
    requires OccursAt(buf, x, pos)
    ensures pos + |x| <= |buf| && buf == buf[..pos] + x + buf[pos + |x|..]
    ensures (buf[..pos] + x)[..pos + |x|] == buf[..pos + |x|] && (buf[..pos] + x)[..pos] == buf[..pos]
  {}

  lemma LineAlone(buf: Bytes, pos: nat)
    requires Find(buf, CRLF) == Some(pos)
    ensures pos + 2 <= |buf| && buf == buf[..pos] + CRLF + buf[pos + 2..]
    ensures Find(buf[..pos] + CRLF, CRLF) == Some(pos) && (buf[..pos] + CRLF)[..pos] == buf[..pos]
  {
    FindIsFirst(buf, CRLF);
    CutOut(buf, CRLF, pos);
    FindStable(buf, buf[..pos] + CRLF, CRLF, pos);
  }

  lemma HeaderAnnounces(buf: Bytes)
    requires ParseHeader(buf).Header?
    ensures var h := ParseHeader(buf);
      var line := buf[..h.consumed - 2];
      Announces(line, h.size, h.signature) && buf == line + CRLF + buf[h.consumed..]
  {
    HeaderEnds(buf);
    var pos := Find(buf, CRLF).value;
    LineAlone(buf, pos);
    ParseHeaderLocal(buf[..pos] + CRLF, buf, pos);
  }

  lemma HeaderRead(d: Decoder, wire: Bytes, frames: seq<Frame>, line: Bytes, l: Bytes, rest: Bytes, e: Decoder)
    requires d.state.ReadingHeader? && d.buf == l + CRLF + rest && wire == Read(d, frames, line) + d.buf
    requires e.state.ReadingChunk? && e.buf == rest && e.chunkData == []
    ensures wire == Read(e, frames, l) + e.buf
  {
    Associative(WireOf(frames), l + CRLF, rest);
    assert l + CRLF + [] == l + CRLF;
  }

  lemma HeaderAgrees(s: Signer, seed: Bytes, d: Decoder, frames: seq<Frame>, line: Bytes, l: Bytes, e: Decoder,
                     size: nat)
    requires d.state.ReadingHeader? && Agrees(s, seed, d, frames, line)
    requires e.state == ReadingChunk(size) && e.prev == d.prev && e.chunkData == [] && Announces(l, size, e.pending)
    ensures Agrees(s, seed, e, frames, l)
  {}

  lemma HeaderAccounts(s: Signer, seed: Bytes, wire: Bytes, out: Bytes, d: Decoder, frames: seq<Frame>, line: Bytes,
                       l: Bytes, size: nat, sig: Bytes, rest: Bytes)
    requires d.state.ReadingHeader? && Accounts(s, seed, wire, out, d, frames, line)
    requires d.buf == l + CRLF + rest && Announces(l, size, sig)
    ensures Accounts(s, seed, wire, out, Decoder(ReadingChunk(size), rest, d.prev, sig, [], d.finished), frames, l)
  {
    var e := Decoder(ReadingChunk(size), rest, d.prev, sig, [], d.finished);
    HeaderRead(d, wire, frames, line, l, rest, e);
    HeaderAgrees(s, seed, d, frames, line, l, e, size);
    assert DataOf(frames) + [] == DataOf(frames);
  }

  lemma FinalAccounts(s: Signer, seed: Bytes, wire: Bytes, out: Bytes, d: Decoder, frames: seq<Frame>, line: Bytes,
                      l: Bytes, sig: Bytes, rest: Bytes)
    requires d.state.ReadingHeader? && Accounts(s, seed, wire, out, d, frames, line)
    requires d.buf == l + CRLF + rest && Announces(l, 0, sig) && Verifies(s, d.prev, [], sig)
    ensures Accounts(s, seed, wire, out, Decoder(Done, rest, sig, sig, [], true), frames, l)
  {
    Associative(WireOf(frames), l + CRLF, rest);
  }

  lemma HeaderTurnAccounts(s: Signer, seed: Bytes, wire: Bytes, out: Bytes, d: Decoder,
                           frames: seq<Frame>, line: Bytes, l: Bytes)
    requires Valid(d) && d.state.ReadingHeader? && Accounts(s, seed, wire, out, d, frames, line)
    requires OneTurn(s, d).Go? && l == d.buf[..ParseHeader(d.buf).consumed - 2]
    ensures Accounts(s, seed, wire, out + OneTurn(s, d).out, OneTurn(s, d).next, frames, l)
  {
    HeaderAnnounces(d.buf);
    assert out + [] == out;
    var h := ParseHeader(d.buf);
    var rest := d.buf[h.consumed..];
    HeaderAccounts(s, seed, wire, out, d, frames, line, l, h.size, h.signature, rest);
    if h.size == 0 { FinalAccounts(s, seed, wire, out, d, frames, line, l, h.signature, rest); }
  }

  lemma Regroup(a: Bytes, b: Bytes, c: Bytes, x: Bytes, rest: Bytes)
    ensures a + (b + c) + (x + rest) == a + (b + (c + x)) + rest
  {
    Associative(a + (b + c), x, rest);
    Associative(a, b + c, x);
    Associative(b, c, x);
  }

  lemma PartRead(d: Decoder, wire: Bytes, frames: seq<Frame>, line: Bytes, e: Decoder)
    requires d.state.ReadingChunk? && wire == Read(d, frames, line) + d.buf
    requires e.state.ReadingChunk? && e.buf == [] && e.chunkData == d.chunkData + d.buf
    ensures wire == Read(e, frames, line) + e.buf
  {
    Regroup(WireOf(frames), line + CRLF, d.chunkData, d.buf, []);
    assert d.buf + [] == d.buf;
    assert Read(e, frames, line) == WireOf(frames) + (line + CRLF + (d.chunkData + d.buf));
  }

  lemma PartAccounts(s: Signer, seed: Bytes, wire: Bytes, out: Bytes, d: Decoder, frames: seq<Frame>, line: Bytes,
                     e: Decoder)
    requires d.state.ReadingChunk? && |d.buf| < d.state.remaining && Accounts(s, seed, wire, out, d, frames, line)
    requires e == d.(state := ReadingChunk(d.state.remaining - |d.buf|), buf := [], chunkData := d.chunkData + d.buf)
    ensures Accounts(s, seed, wire, out + d.buf, e, frames, line)
  {
    PartRead(d, wire, frames, line, e);
    Associative(DataOf(frames), d.chunkData, d.buf);
  }

  lemma ChunkGoesOn(s: Signer, seed: Bytes, wire: Bytes, out: Bytes, d: Decoder, frames: seq<Frame>, line: Bytes,
                    next: Decoder, o: Bytes)
    requires Valid(d) && Partial(d) && Accounts(s, seed, wire, out, d, frames, line)
    requires OneTurn(s, d) == Go(next, o)
    ensures o == d.buf && Accounts(s, seed, wire, out + d.buf, next, frames, line)
  {
    PartTurn(s, d);
    PartAccounts(s, seed, wire, out, d, frames, line, next);
  }

  lemma AddFrame(s: Signer, seed: Bytes, frames: seq<Frame>, f: Frame)
    ensures WireToData(frames + [f]) == WireOf(frames) + (f.line + CRLF + f.data)
    ensures DataOf(frames + [f]) == DataOf(frames) + f.data
    ensures LastSignature(seed, frames + [f]) == f.signature
    ensures Chained(s, seed, frames) && Signed(s, LastSignature(seed, frames), f) ==> Chained(s, seed, frames + [f])
  {
    assert (frames + [f])[..|frames|] == frames;
  }

  lemma ChunkAccounts(s: Signer, seed: Bytes, wire: Bytes, out: Bytes, d: Decoder, frames: seq<Frame>, line: Bytes,
                      x: Bytes, rest: Bytes)
    requires d.state == ReadingChunk(|x|) && x != [] && Accounts(s, seed, wire, out, d, frames, line)
    requires d.buf == x + rest && Verifies(s, d.prev, d.chunkData + x, d.pending)
    ensures Accounts(s, seed, wire, out + x, Decoder(ReadingChunkTrailer, rest, d.pending, d.pending, [], d.finished),
                     frames + [Frame(line, d.pending, d.chunkData + x)], line)
  {
    var more := frames + [Frame(line, d.pending, d.chunkData + x)];
    AddFrame(s, seed, frames, Frame(line, d.pending, d.chunkData + x));
    Associative(DataOf(frames), d.chunkData, x);
    Regroup(WireOf(frames), line + CRLF, d.chunkData, x, rest);
    assert DataOf(more) + [] == DataOf(more);
  }

  lemma LastPart(d: Decoder) returns (x: Bytes, rest: Bytes)
    requires d.state.ReadingChunk? && !Partial(d)
    ensures d.buf == x + rest && d.state == ReadingChunk(|x|)
  {
    x, rest := d.buf[..d.state.remaining], d.buf[d.state.remaining..];
  }

  lemma LastTurn(s: Signer, d: Decoder, x: Bytes, rest: Bytes)
    requires Valid(d) && d.state == ReadingChunk(|x|) && d.buf == x + rest
    ensures OneTurn(s, d) ==
      if Verifies(s, d.prev, d.chunkData + x, d.pending) then
        Go(Decoder(ReadingChunkTrailer, rest, d.pending, d.pending, [], d.finished), x)
      else Fail(Decoder(d.state, rest, d.prev, d.pending, [], d.finished), x, SignatureMismatch)
  {
    ChunkTurns(s, d, |x|);
    assert d.buf[..|x|] == x && d.buf[|x|..] == rest;
  }

  lemma ChunkEnds(s: Signer, seed: Bytes, wire: Bytes, out: Bytes, d: Decoder, frames: seq<Frame>, line: Bytes,
                  x: Bytes, rest: Bytes, next: Decoder)
    returns (more: seq<Frame>)
    requires Valid(d) && d.state == ReadingChunk(|x|) && d.buf == x + rest
    requires Accounts(s, seed, wire, out, d, frames, line) && OneTurn(s, d).Go? && OneTurn(s, d).next == next
    ensures OneTurn(s, d).out == x && Accounts(s, seed, wire, out + x, next, more, line)
  {
    LastTurn(s, d, x, rest);
    more := frames + [Frame(line, d.pending, d.chunkData + x)];
    ChunkAccounts(s, seed, wire, out, d, frames, line, x, rest);
  }

  lemma TrailerGoes(s: Signer, d: Decoder)
    requires d.state.ReadingChunkTrailer? && OneTurn(s, d).Go?
    ensures |d.buf| >= 2 && d.buf == CRLF + d.buf[2..]
    ensures OneTurn(s, d) == Go(d.(buf := d.buf[2..], state := ReadingHeader), [])
  {}

  lemma WireEnds(frames: seq<Frame>)
    requires frames != []
    ensures WireOf(frames) == WireToData(frames) + CRLF
  {
    var init, f := frames[..|frames| - 1], frames[|frames| - 1];
    Associative(WireOf(init), f.line + CRLF + f.data, CRLF);
  }

  lemma TrailerAccounts(s: Signer, seed: Bytes, wire: Bytes, out: Bytes, d: Decoder, frames: seq<Frame>, line: Bytes)
    requires d.state.ReadingChunkTrailer? && Accounts(s, seed, wire, out, d, frames, line) && OneTurn(s, d).Go?
    ensures Accounts(s, seed, wire, out + OneTurn(s, d).out, OneTurn(s, d).next, frames, line)
  {
    TrailerGoes(s, d);
    WireEnds(frames);
    Associative(WireToData(frames), CRLF, d.buf[2..]);
    assert out + [] == out;
  }

  lemma ChunkTurnAccounts(s: Signer, seed: Bytes, wire: Bytes, out: Bytes, d: Decoder, frames: seq<Frame>,
                          line: Bytes, next: Decoder, o: Bytes)
    returns (more: seq<Frame>)
    requires Valid(d) && d.state.ReadingChunk? && Accounts(s, seed, wire, out, d, frames, line)
    requires OneTurn(s, d) == Go(next, o)
    ensures Accounts(s, seed, wire, out + o, next, more, line)
  {
    if Partial(d) {
      more := frames;
      ChunkGoesOn(s, seed, wire, out, d, frames, line, next, o);
    } else {
      var x, rest := LastPart(d);
      more := ChunkEnds(s, seed, wire, out, d, frames, line, x, rest, next);
    }
  }

  lemma TurnAccounts(s: Signer, seed: Bytes, wire: Bytes, out: Bytes, d: Decoder, frames: seq<Frame>, line: Bytes)
    returns (more: seq<Frame>, l: Bytes)
    requires Valid(d) && Accounts(s, seed, wire, out, d, frames, line) && OneTurn(s, d).Go?
    ensures Accounts(s, seed, wire, out + OneTurn(s, d).out, OneTurn(s, d).next, more, l)
  {
    more, l := frames, line;
    if d.state.ReadingHeader? {
      l := d.buf[..ParseHeader(d.buf).consumed - 2];
      HeaderTurnAccounts(s, seed, wire, out, d, frames, line, l);
    } else if d.state.ReadingChunk? {
      more := ChunkTurnAccounts(s, seed, wire, out, d, frames, line, OneTurn(s, d).next, OneTurn(s, d).out);
    } else {
      TrailerAccounts(s, seed, wire, out, d, frames, line);
    }
  }

  lemma {:induction false} DrainAccounts(s: Signer, seed: Bytes, wire: Bytes, out: Bytes, d: Decoder,
                                         frames: seq<Frame>, line: Bytes)
    returns (more: seq<Frame>, l: Bytes)
    requires Valid(d) && Accounts(s, seed, wire, out, d, frames, line) && Drain(s, d).error.None?
    ensures Accounts(s, seed, wire, out + Drain(s, d).out, Drain(s, d).decoder, more, l)
    decreases |d.buf|
  {
    if OneTurn(s, d).Go? {
      TurnProgress(s, d);
      var o := OneTurn(s, d).out;
      more, l := TurnAccounts(s, seed, wire, out, d, frames, line);
      more, l := DrainAccounts(s, seed, wire, out + o, OneTurn(s, d).next, more, l);
      Associative(out, o, Drain(s, OneTurn(s, d).next).out);
    } else {
      more, l := frames, line;
      assert out + [] == out;
    }
  }

  lemma FedAgrees(s: Signer, seed: Bytes, d: Decoder, frames: seq<Frame>, line: Bytes, data: Bytes)
    ensures Agrees(s, seed, Fed(d, data), frames, line) == Agrees(s, seed, d, frames, line)
    ensures Read(Fed(d, data), frames, line) == Read(d, frames, line)
  {}

  lemma FedAccounts(s: Signer, seed: Bytes, wire: Bytes, out: Bytes, d: Decoder, frames: seq<Frame>, line: Bytes,
                    data: Bytes)
    requires !d.state.Done? && Accounts(s, seed, wire, out, d, frames, line)
    ensures Accounts(s, seed, wire + data, out, Fed(d, data), frames, line)
  {
    FedAgrees(s, seed, d, frames, line, data);
    Associative(Read(d, frames, line), d.buf, data);
  }

  lemma PushAccounts(s: Signer, seed: Bytes, wire: Bytes, out: Bytes, d: Decoder, frames: seq<Frame>, line: Bytes,
                     data: Bytes)
    returns (more: seq<Frame>, l: Bytes)
    requires Valid(d) && Accounts(s, seed, wire, out, d, frames, line) && Push(s, d, data).error.None?
    ensures Accounts(s, seed, wire + data, out + Push(s, d, data).out, Push(s, d, data).decoder, more, l)
  {
    if d.finished {
      more, l := frames, line;
      assert out + [] == out;
    } else {
      FedAccounts(s, seed, wire, out, d, frames, line, data);
      more, l := DrainAccounts(s, seed, wire + data, out, Fed(d, data), frames, line);
    }
  }

  lemma {:induction false} PushAllAccounts(s: Signer, seed: Bytes, wire: Bytes, out: Bytes, d: Decoder,
                                           frames: seq<Frame>, line: Bytes, pieces: seq<Bytes>)
    returns (more: seq<Frame>, l: Bytes)
    requires Valid(d) && Accounts(s, seed, wire, out, d, frames, line) && PushAll(s, d, pieces).error.None?
    ensures Accounts(s, seed, wire + Concat(pieces), out + PushAll(s, d, pieces).out, PushAll(s, d, pieces).decoder,
                     more, l)
    decreases |pieces|
  {
    if pieces == [] {
      more, l := frames, line;
      assert out + [] == out && wire + [] == wire;
    } else {
      var first := Push(s, d, pieces[0]);
      more, l := PushAccounts(s, seed, wire, out, d, frames, line, pieces[0]);
      more, l := PushAllAccounts(s, seed, wire + pieces[0], out + first.out, first.decoder, more, l, pieces[1..]);
      Associative(out, first.out, PushAll(s, first.decoder, pieces[1..]).out);
      Associative(wire, pieces[0], Concat(pieces[1..]));
    }
  }

  /** As long as no error is reported, whatever is pushed in whatever pieces: what was delivered is the
      data of chunks whose signatures chain from the seed, followed by the chunk being read; and until the
      stream has ended every byte is in a chunk, in a header, or in the buffer. */
  lemma Soundness(s: Signer, seed: Bytes, pieces: seq<Bytes>) returns (frames: seq<Frame>, line: Bytes)
    requires PushAll(s, Start(seed), pieces).error.None?
    ensures var o := PushAll(s, Start(seed), pieces);
      Accounts(s, seed, Concat(pieces), o.out, o.decoder, frames, line)
  {
    frames, line := PushAllAccounts(s, seed, [], [], Start(seed), [], [], pieces);
    assert [] + Concat(pieces) == Concat(pieces);
    assert [] + PushAll(s, Start(seed), pieces).out == PushAll(s, Start(seed), pieces).out;
  }

  /** The first error of a stream, `d` being left by it: delivered were the data of `frames`, which are
      verified and chained, and the bytes `rest`. The error is malformed input right behind those chunks, and
      nothing more was delivered; or it is the signature announced by `line`, and `rest` is the whole data of
      the chunk that it does not fit, empty for the final chunk. */
  ghost predicate FailsAt(s: Signer, seed: Bytes, wire: Bytes, out: Bytes, d: Decoder, error: Error,
                          frames: seq<Frame>, line: Bytes, rest: Bytes)
  {
    && Chained(s, seed, frames) && out == DataOf(frames) + rest
    && match error
       case MalformedPayload =>
         && rest == []
         && (if d.state.ReadingHeader? then ParseHeader(d.buf).Malformed? && WireOf(frames) + d.buf <= wire
             else frames != [] && WireToData(frames) + d.buf <= wire && |d.buf| >= 2 && d.buf[..2] != CRLF)
       case SignatureMismatch =>
         && Announces(line, |rest|, d.pending)
         && WireOf(frames) + (line + CRLF + rest) <= wire
         && !Verifies(s, LastSignature(seed, frames), rest, d.pending)
  }

  lemma HeaderUnaccounted(s: Signer, seed: Bytes, wire: Bytes, out: Bytes, d: Decoder, frames: seq<Frame>,
                          line: Bytes, l: Bytes, sig: Bytes, rest: Bytes, e: Decoder)
    requires d.state.ReadingHeader? && Accounts(s, seed, wire, out, d, frames, line)
    requires d.buf == l + CRLF + rest && Announces(l, 0, sig) && !Verifies(s, d.prev, [], sig) && e.pending == sig
    ensures FailsAt(s, seed, wire, out, e, SignatureMismatch, frames, l, [])
  {
    Associative(WireOf(frames), l + CRLF, rest);
    assert l + CRLF + [] == l + CRLF;
  }

  lemma HeaderFails(s: Signer, seed: Bytes, wire: Bytes, out: Bytes, d: Decoder, frames: seq<Frame>, line: Bytes)
    returns (l: Bytes)
    requires Valid(d) && d.state.ReadingHeader? && Accounts(s, seed, wire, out, d, frames, line)
    requires OneTurn(s, d).Fail?
    ensures OneTurn(s, d).out == []
    ensures FailsAt(s, seed, wire, out, OneTurn(s, d).next, OneTurn(s, d).error, frames, l, [])
  {
    l := line;
    var h := ParseHeader(d.buf);
    if h.Header? {
      HeaderAnnounces(d.buf);
      l := d.buf[..h.consumed - 2];
      HeaderUnaccounted(s, seed, wire, out, d, frames, line, l, h.signature, d.buf[h.consumed..], OneTurn(s, d).next);
    } else {
      assert DataOf(frames) + [] == DataOf(frames);
    }
  }

  lemma RegroupPrefix(a: Bytes, b: Bytes, c: Bytes, x: Bytes, rest: Bytes)
    ensures a + (b + (c + x)) <= a + (b + c) + (x + rest)
  {
    Regroup(a, b, c, x, rest);
  }

  lemma ChunkUnaccounted(s: Signer, seed: Bytes, wire: Bytes, out: Bytes, d: Decoder, frames: seq<Frame>, line: Bytes,
                         x: Bytes, left: Bytes, e: Decoder)
    requires d.state == ReadingChunk(|x|) && Accounts(s, seed, wire, out, d, frames, line)
    requires d.buf == x + left && !Verifies(s, d.prev, d.chunkData + x, d.pending) && e.pending == d.pending
    ensures FailsAt(s, seed, wire, out + x, e, SignatureMismatch, frames, line, d.chunkData + x)
  {
    Associative(DataOf(frames), d.chunkData, x);
    RegroupPrefix(WireOf(frames), line + CRLF, d.chunkData, x, left);
  }

  lemma ChunkFails(s: Signer, seed: Bytes, wire: Bytes, out: Bytes, d: Decoder, frames: seq<Frame>, line: Bytes,
                   x: Bytes, left: Bytes, next: Decoder, o: Bytes, error: Error)
    requires Valid(d) && d.state == ReadingChunk(|x|) && d.buf == x + left
    requires Accounts(s, seed, wire, out, d, frames, line) && OneTurn(s, d) == Fail(next, o, error)
    ensures FailsAt(s, seed, wire, out + o, next, error, frames, line, d.chunkData + x)
  {
    LastTurn(s, d, x, left);
    ChunkUnaccounted(s, seed, wire, out, d, frames, line, x, left, next);
  }

  lemma ChunkTurnFails(s: Signer, seed: Bytes, wire: Bytes, out: Bytes, d: Decoder, frames: seq<Frame>, line: Bytes,
                       next: Decoder, o: Bytes, error: Error)
    returns (rest: Bytes)
    requires Valid(d) && d.state.ReadingChunk? && Accounts(s, seed, wire, out, d, frames, line)
    requires OneTurn(s, d) == Fail(next, o, error) && !Partial(d)
    ensures FailsAt(s, seed, wire, out + o, next, error, frames, line, rest)
  {
    var x, left := LastPart(d);
    ChunkFails(s, seed, wire, out, d, frames, line, x, left, next, o, error);
    rest := d.chunkData + x;
  }

  lemma TurnFails(s: Signer, seed: Bytes, wire: Bytes, out: Bytes, d: Decoder, frames: seq<Frame>, line: Bytes)
    returns (l: Bytes, rest: Bytes)
    requires Valid(d) && Accounts(s, seed, wire, out, d, frames, line) && OneTurn(s, d).Fail?
    ensures FailsAt(s, seed, wire, out + OneTurn(s, d).out, OneTurn(s, d).next, OneTurn(s, d).error, frames, l, rest)
  {
    l, rest := line, [];
    if d.state.ReadingChunk? {
      var t := OneTurn(s, d);
      rest := ChunkTurnFails(s, seed, wire, out, d, frames, line, t.next, t.out, t.error);
    } else {
      assert out + [] == out;
      if d.state.ReadingHeader? { l := HeaderFails(s, seed, wire, out, d, frames, line); }
    }
  }

  lemma {:induction false} DrainFails(s: Signer, seed: Bytes, wire: Bytes, out: Bytes, d: Decoder,
                                      frames: seq<Frame>, line: Bytes)
    returns (more: seq<Frame>, l: Bytes, rest: Bytes)
    requires Valid(d) && Accounts(s, seed, wire, out, d, frames, line) && Drain(s, d).error.Some?
    ensures var o := Drain(s, d);
      FailsAt(s, seed, wire, out + o.out, o.decoder, o.error.value, more, l, rest)
    decreases |d.buf|
  {
    if OneTurn(s, d).Go? {
      TurnProgress(s, d);
      var x := OneTurn(s, d).out;
      more, l := TurnAccounts(s, seed, wire, out, d, frames, line);
      more, l, rest := DrainFails(s, seed, wire, out + x, OneTurn(s, d).next, more, l);
      Associative(out, x, Drain(s, OneTurn(s, d).next).out);
    } else {
      more := frames;
      l, rest := TurnFails(s, seed, wire, out, d, frames, line);
    }
  }

  lemma FailsAtPrefix(s: Signer, seed: Bytes, wire: Bytes, more: Bytes, out: Bytes, d: Decoder, error: Error,
                      frames: seq<Frame>, line: Bytes, rest: Bytes)
    requires FailsAt(s, seed, wire, out, d, error, frames, line, rest)
    ensures FailsAt(s, seed, wire + more, out, d, error, frames, line, rest)
  {}

  lemma {:induction false} PushAllFails(s: Signer, seed: Bytes, wire: Bytes, out: Bytes, d: Decoder,
                                        frames: seq<Frame>, line: Bytes, pieces: seq<Bytes>)
    returns (more: seq<Frame>, l: Bytes, rest: Bytes)
    requires Valid(d) && Accounts(s, seed, wire, out, d, frames, line) && PushAll(s, d, pieces).error.Some?
    ensures var o := PushAll(s, d, pieces);
      FailsAt(s, seed, wire + Concat(pieces), out + o.out, o.decoder, o.error.value, more, l, rest)
    decreases |pieces|
  {
    var first := Push(s, d, pieces[0]);
    Associative(wire, pieces[0], Concat(pieces[1..]));
    if first.error.Some? {
      FedAccounts(s, seed, wire, out, d, frames, line, pieces[0]);
      more, l, rest := DrainFails(s, seed, wire + pieces[0], out, Fed(d, pieces[0]), frames, line);
      FailsAtPrefix(s, seed, wire + pieces[0], Concat(pieces[1..]), out + first.out, first.decoder,
                    first.error.value, more, l, rest);
    } else {
      more, l := PushAccounts(s, seed, wire, out, d, frames, line, pieces[0]);
      more, l, rest := PushAllFails(s, seed, wire + pieces[0], out + first.out, first.decoder, more, l, pieces[1..]);
      Associative(out, first.out, PushAll(s, first.decoder, pieces[1..]).out);
    }
  }

  /** What was delivered when a stream fails: the data of verified chunks that chain from the seed, and then,
      if it is a signature that is wrong, the data of the one chunk that it does not fit. */
  lemma SoundnessAtError(s: Signer, seed: Bytes, pieces: seq<Bytes>)
    returns (frames: seq<Frame>, line: Bytes, rest: Bytes)
    requires PushAll(s, Start(seed), pieces).error.Some?
    ensures var o := PushAll(s, Start(seed), pieces);
      FailsAt(s, seed, Concat(pieces), o.out, o.decoder, o.error.value, frames, line, rest)
  {
    frames, line, rest := PushAllFails(s, seed, [], [], Start(seed), [], [], pieces);
    assert [] + Concat(pieces) == Concat(pieces);
    assert [] + PushAll(s, Start(seed), pieces).out == PushAll(s, Start(seed), pieces).out;
  }

  // ---- what the signatures fix ----

  lemma VerifiedIsOneLine(s: Signer, prev: Bytes, data: Bytes, sig: Bytes)
    requires Verifies(s, prev, data, sig)
    ensures 10 !in sig
  {
    var mac := Signature(s, prev, data);
    forall i | 0 <= i < |sig|
      ensures sig[i] != 10
    {
      assert Lower(sig)[i] == mac[i];
    }
  }

  lemma LastIsOneLine(s: Signer, seed: Bytes, frames: seq<Frame>)
    requires Chained(s, seed, frames) && 10 !in seed
    ensures 10 !in LastSignature(seed, frames)
  {
    if frames != [] {
      var init, f := frames[..|frames| - 1], frames[|frames| - 1];
      VerifiedIsOneLine(s, LastSignature(seed, init), f.data, f.signature);
    }
  }

  /** The same data under the same signatures, in whatever header lines. */
  ghost predicate SameChunks(f: seq<Frame>, g: seq<Frame>) {
    |f| == |g| && forall i :: 0 <= i < |f| ==> f[i].signature == g[i].signature && f[i].data == g[i].data
  }

  lemma SplitLast<T>(s: seq<T>)
    requires s != []
    ensures s == s[..|s| - 1] + [s[|s| - 1]]
  {}

  lemma ChainUnfolds(s: Signer, seed: Bytes, frames: seq<Frame>)
    requires Chained(s, seed, frames) && frames != []
    ensures var init, f := frames[..|frames| - 1], frames[|frames| - 1];
      Chained(s, seed, init) && Verifies(s, LastSignature(seed, init), f.data, f.signature)
  {}

  lemma LastOfChain(s: Signer, seed: Bytes, frames: seq<Frame>) returns (init: seq<Frame>, f: Frame)
    requires Chained(s, seed, frames) && frames != []
    ensures frames == init + [f] && |init| == |frames| - 1 && LastSignature(seed, frames) == f.signature
    ensures Chained(s, seed, init) && Verifies(s, LastSignature(seed, init), f.data, f.signature)
  {
    init, f := frames[..|frames| - 1], frames[|frames| - 1];
    SplitLast(frames);
    ChainUnfolds(s, seed, frames);
  }

  lemma SameSnoc(f: seq<Frame>, g: seq<Frame>, a: Frame, b: Frame)
    requires SameChunks(f, g) && a.signature == b.signature && a.data == b.data
    ensures SameChunks(f + [a], g + [b])
  {}

  lemma ChainStep(s: Signer, seed: Bytes, f: seq<Frame>, a: Frame, g: seq<Frame>, b: Frame)
    requires CollisionFree(s) && OneLine(s, seed) && Chained(s, seed, f) && Chained(s, seed, g)
    requires Verifies(s, LastSignature(seed, f), a.data, a.signature)
    requires Verifies(s, LastSignature(seed, g), b.data, b.signature) && a.signature == b.signature
    ensures LastSignature(seed, f) == LastSignature(seed, g) && a.data == b.data
  {
    LastIsOneLine(s, seed, f);
    LastIsOneLine(s, seed, g);
    OneChunkFits(s, LastSignature(seed, f), a.data, LastSignature(seed, g), b.data, a.signature);
  }

  /** Two chains of one length that end in one signature have one predecessor and one chunk there. */
  lemma ChainsEndAlike(s: Signer, seed: Bytes, f: seq<Frame>, g: seq<Frame>)
    returns (p: seq<Frame>, a: Frame, q: seq<Frame>, b: Frame)
    requires CollisionFree(s) && OneLine(s, seed) && Chained(s, seed, f) && Chained(s, seed, g) && f != []
    requires |f| == |g| && LastSignature(seed, f) == LastSignature(seed, g)
    ensures f == p + [a] && g == q + [b] && a.signature == b.signature && a.data == b.data
    ensures Chained(s, seed, p) && Chained(s, seed, q) && LastSignature(seed, p) == LastSignature(seed, q)
  {
    p, a := LastOfChain(s, seed, f);
    q, b := LastOfChain(s, seed, g);
    ChainStep(s, seed, p, a, q, b);
  }

  /** Without collisions the last signature of a chain fixes every chunk before it: its data and its signature. */
  lemma {:induction false} ChainDetermines(s: Signer, seed: Bytes, f: seq<Frame>, g: seq<Frame>)
    requires CollisionFree(s) && OneLine(s, seed) && Chained(s, seed, f) && Chained(s, seed, g)
    requires |f| == |g| && LastSignature(seed, f) == LastSignature(seed, g)
    ensures SameChunks(f, g)
    decreases |f|
  {
    if f != [] {
      var p, a, q, b := ChainsEndAlike(s, seed, f, g);
      ChainDetermines(s, seed, p, q);
      SameSnoc(p, q, a, b);
    }
  }

  lemma {:induction false} SameData(f: seq<Frame>, g: seq<Frame>)
    requires SameChunks(f, g)
    ensures DataOf(f) == DataOf(g)
  {
    if f != [] { SameData(f[..|f| - 1], g[..|g| - 1]); }
  }

  /** Two streams that end well under one seed and with one final signature, cut into equally many chunks, have
      delivered the same payload: no byte of it can be changed under its signatures. */
  lemma FinalSignatureFixesPayload(s: Signer, seed: Bytes, a: seq<Bytes>, b: seq<Bytes>)
    returns (f: seq<Frame>, g: seq<Frame>, lineA: Bytes, lineB: Bytes)
    requires CollisionFree(s) && OneLine(s, seed)
    requires var x, y := PushAll(s, Start(seed), a), PushAll(s, Start(seed), b);
      && x.error.None? && y.error.None? && x.decoder.state.Done? && y.decoder.state.Done?
      && x.decoder.prev == y.decoder.prev
    ensures var x, y := PushAll(s, Start(seed), a), PushAll(s, Start(seed), b);
      && Accounts(s, seed, Concat(a), x.out, x.decoder, f, lineA)
      && Accounts(s, seed, Concat(b), y.out, y.decoder, g, lineB)
      && (|f| == |g| ==> x.out == y.out)
  {
    f, lineA := Soundness(s, seed, a);
    g, lineB := Soundness(s, seed, b);
    if |f| == |g| {
      LastIsOneLine(s, seed, f);
      LastIsOneLine(s, seed, g);
      var sig := PushAll(s, Start(seed), a).decoder.prev;
      OneChunkFits(s, LastSignature(seed, f), [], LastSignature(seed, g), [], sig);
      ChainDetermines(s, seed, f, g);
      SameData(f, g);
    }
  }

  // ---- the encoder ----

  function HeaderLine(size: nat, sig: Bytes): Bytes {
    HexNumber(size) + [SEMICOLON] + (SIGNATURE_FIELD() + sig)
  }

  /** The chunks as a signing client sends them, with the final empty chunk. */
  function Encode(s: Signer, prev: Bytes, chunks: seq<Bytes>): Bytes
    decreases |chunks|
  {
    if chunks == [] then HeaderLine(0, Signature(s, prev, [])) + CRLF
    else
      var sig := Signature(s, prev, chunks[0]);
      Wire(Frame(HeaderLine(|chunks[0]|, sig), sig, chunks[0])) + Encode(s, sig, chunks[1..])
  }

  predicate IsPrinted(b: Bytes) {
    forall i :: 0 <= i < |b| ==> 48 <= b[i] <= 57 || 97 <= b[i] <= 102
  }

  lemma FieldBytes()
    ensures SIGNATURE_FIELD()
      == [99, 104, 117, 110, 107, 45, 115, 105, 103, 110, 97, 116, 117, 114, 101, 61]
  {}

  lemma HeaderLineBytes(size: nat, sig: Bytes)
    requires IsPrinted(sig)
    ensures var line := HeaderLine(size, sig);
      forall i :: 0 <= i < |line| ==> 13 < line[i] < 0x80
  {
    FieldBytes();
  }

  lemma NoEarlyCrlf(line: Bytes, rest: Bytes)
    requires 13 !in line
    ensures Find(line + CRLF + rest, CRLF) == Some(|line|)
  {
    var buf := line + CRLF + rest;
    assert buf[|line|..|line| + 2] == CRLF;
    forall j: nat | j < |line|
      ensures !OccursAt(buf, CRLF, j)
    {
      assert buf[j] == line[j];
      assert buf[j..j + 2][0] == buf[j];
    }
    FindIs(buf, CRLF, |line|);
  }

  lemma SplitHeaderLine(size: nat, sig: Bytes)
    requires IsPrinted(sig)
    ensures Split(HeaderLine(size, sig), SEMICOLON) == [HexNumber(size), SIGNATURE_FIELD() + sig]
  {
    FieldBytes();
    SplitPlain(SIGNATURE_FIELD() + sig, SEMICOLON);
    SplitAt(HexNumber(size), SIGNATURE_FIELD() + sig, SEMICOLON);
  }

  lemma FindPrintedSignature(size: nat, sig: Bytes)
    ensures FindSignature([HexNumber(size), SIGNATURE_FIELD() + sig]) == sig
  {
    FieldBytes();
    var fields := [HexNumber(size), SIGNATURE_FIELD() + sig];
    assert SIGNATURE_FIELD()[1] == 104 && (|fields[0]| > 1 ==> fields[0][1] != 104);
    assert fields[1..] == [SIGNATURE_FIELD() + sig];
  }

  /** The header parser inverts the header printer, whatever follows in the buffer. */
  lemma ParsePrintedHeader(size: nat, sig: Bytes, rest: Bytes)
    requires size < 0x1_0000_0000_0000_0000 && IsPrinted(sig)
    ensures var line := HeaderLine(size, sig);
      ParseHeader(line + CRLF + rest) == Header(size, sig, |line| + 2)
  {
    var line := HeaderLine(size, sig);
    HeaderLineBytes(size, sig);
    NoEarlyCrlf(line, rest);
    assert (line + CRLF + rest)[..|line|] == line;
    AsciiIsUtf8(line);
    SplitHeaderLine(size, sig);
    ParseHexNumber(size);
    FindPrintedSignature(size, sig);
  }

  // ---- the decoder undoes the encoder ----

  /** A decoder between chunks. */
  function Between(prev: Bytes, pending: Bytes, buf: Bytes): Decoder {
    Decoder(ReadingHeader, buf, prev, pending, [], false)
  }

  lemma HeaderTurn(s: Signer, prev: Bytes, pending: Bytes, size: nat, sig: Bytes, rest: Bytes)
    requires 0 < size < 0x1_0000_0000_0000_0000 && IsPrinted(sig)
    ensures OneTurn(s, Between(prev, pending, HeaderLine(size, sig) + CRLF + rest))
      == Go(Decoder(ReadingChunk(size), rest, prev, sig, [], false), [])
  {
    ParsePrintedHeader(size, sig, rest);
    var line := HeaderLine(size, sig);
    assert (line + CRLF + rest)[|line| + 2..] == rest;
  }

  lemma ChunkTurnVerifies(s: Signer, prev: Bytes, data: Bytes, rest: Bytes)
    requires data != []
    ensures var sig := Signature(s, prev, data);
      OneTurn(s, Decoder(ReadingChunk(|data|), data + rest, prev, sig, [], false))
        == Go(Decoder(ReadingChunkTrailer, rest, sig, sig, [], false), data)
  {
    LowerSignature(s, prev, data);
    assert (data + rest)[..|data|] == data && (data + rest)[|data|..] == rest;
    assert [] + data == data;
  }

  lemma TrailerTurn(s: Signer, sig: Bytes, rest: Bytes)
    ensures OneTurn(s, Decoder(ReadingChunkTrailer, CRLF + rest, sig, sig, [], false))
      == Go(Between(sig, sig, rest), [])
  {
    assert (CRLF + rest)[..2] == CRLF && (CRLF + rest)[2..] == rest;
  }

  /** One chunk as it was sent takes the decoder from one header to the next. */
  lemma DrainFrame(s: Signer, prev: Bytes, pending: Bytes, data: Bytes, rest: Bytes)
    requires 0 < |data| < 0x1_0000_0000_0000_0000
    ensures var sig := Signature(s, prev, data);
      Drain(s, Between(prev, pending, Wire(Frame(HeaderLine(|data|, sig), sig, data)) + rest))
        == Prepend(data, Drain(s, Between(sig, sig, rest)))
  {
    var sig := Signature(s, prev, data);
    var line := HeaderLine(|data|, sig);
    assert Wire(Frame(line, sig, data)) + rest == line + CRLF + (data + (CRLF + rest));
    HeaderTurn(s, prev, pending, |data|, sig, data + (CRLF + rest));
    ChunkTurnVerifies(s, prev, data, CRLF + rest);
    TrailerTurn(s, sig, rest);
    var last := Drain(s, Between(sig, sig, rest));
    assert Drain(s, Decoder(ReadingChunkTrailer, CRLF + rest, sig, sig, [], false)) == Prepend([], last);
    assert Prepend([], last) == last && Prepend([], Prepend(data, last)) == Prepend(data, last);
  }

  lemma DrainFinal(s: Signer, prev: Bytes, pending: Bytes, tail: Bytes)
    ensures var sig := Signature(s, prev, []);
      Drain(s, Between(prev, pending, HeaderLine(0, sig) + CRLF + tail))
        == Outcome(Decoder(Done, tail, sig, sig, [], true), [], None)
  {
    var sig := Signature(s, prev, []);
    ParsePrintedHeader(0, sig, tail);
    LowerSignature(s, prev, []);
    var line := HeaderLine(0, sig);
    assert (line + CRLF + tail)[|line| + 2..] == tail;
  }

  predicate AreChunks(chunks: seq<Bytes>) {
    forall i :: 0 <= i < |chunks| ==> 0 < |chunks[i]| < 0x1_0000_0000_0000_0000
  }

  lemma {:induction false} DrainEncoded(s: Signer, prev: Bytes, pending: Bytes, chunks: seq<Bytes>, tail: Bytes)
    requires AreChunks(chunks)
    ensures var o := Drain(s, Between(prev, pending, Encode(s, prev, chunks) + tail));
      o.out == Concat(chunks) && o.error == None && o.decoder.finished && o.decoder.buf == tail
    decreases |chunks|
  {
    if chunks == [] {
      DrainFinal(s, prev, pending, tail);
    } else {
      var sig := Signature(s, prev, chunks[0]);
      var first := Wire(Frame(HeaderLine(|chunks[0]|, sig), sig, chunks[0]));
      var rest := Encode(s, sig, chunks[1..]);
      Associative(first, rest, tail);
      DrainFrame(s, prev, pending, chunks[0], rest + tail);
      DrainEncoded(s, sig, sig, chunks[1..], tail);
    }
  }

  /** Round trip: whatever the chunks contain, and however the encoder's output (and anything behind it, such
      as the trailing line end) is cut into pieces, exactly the chunks come out and the stream ends. */
  lemma RoundTrip(s: Signer, seed: Bytes, chunks: seq<Bytes>, tail: Bytes, pieces: seq<Bytes>)
    requires AreChunks(chunks) && Concat(pieces) == Encode(s, seed, chunks) + tail
    ensures var o := PushAll(s, Start(seed), pieces);
      o.out == Concat(chunks) && o.error == None && o.decoder.finished
  {
    assert OneTurn(s, Start(seed)).Stop?;
    PushAllIsPush(s, Start(seed), pieces);
    DrainEncoded(s, seed, [], chunks, tail);
    var wire := Encode(s, seed, chunks) + tail;
    assert Fed(Start(seed), wire) == Between(seed, [], wire) by { assert [] + wire == wire; }
  }

  // ---- a stream with a wrong signature ----

  /** A chunk whose header announces the five bytes behind it, with a signature that no MAC prints. */
  function WronglySigned(): Bytes {
    Ascii("5;chunk-signature=00") + CRLF + (Ascii("hello") + CRLF)
  }

  lemma HexFive()
    ensures HexNumber(5) == [53]
  {
    assert Digits(5, 16) == [5];
  }

  lemma WrongHeaderLine()
    ensures HeaderLine(5, [48, 48]) == Ascii("5;chunk-signature=00")
  {
    HexFive();
    assert SIGNATURE_FIELD() + [48, 48] == Ascii("chunk-signature=00");
  }

  lemma WrongChunkTurn(s: Signer, prev: Bytes, sig: Bytes, data: Bytes, rest: Bytes)
    requires data != [] && !Verifies(s, prev, data, sig)
    ensures OneTurn(s, Decoder(ReadingChunk(|data|), data + rest, prev, sig, [], false))
      == Fail(Decoder(ReadingChunk(|data|), rest, prev, sig, [], false), data, SignatureMismatch)
  {
    assert (data + rest)[..|data|] == data && (data + rest)[|data|..] == rest;
    assert [] + data == data;
  }

  lemma TwoTurns(s: Signer, d: Decoder, mid: Decoder, e: Decoder, data: Bytes, error: Error)
    requires Valid(d) && OneTurn(s, d) == Go(mid, []) && OneTurn(s, mid) == Fail(e, data, error)
    ensures Drain(s, d) == Outcome(e, data, Some(error))
  {
    TurnProgress(s, d);
    assert [] + data == data;
  }

  lemma WrongPush(s: Signer, seed: Bytes, sig: Bytes, data: Bytes, wire: Bytes)
    requires 0 < |data| < 0x1_0000_0000_0000_0000 && IsPrinted(sig) && !Verifies(s, seed, data, sig)
    requires wire == HeaderLine(|data|, sig) + CRLF + (data + CRLF)
    ensures Push(s, Start(seed), wire)
      == Outcome(Decoder(ReadingChunk(|data|), CRLF, seed, sig, [], false), data, Some(SignatureMismatch))
  {
    assert Fed(Start(seed), wire) == Between(seed, [], wire) by { assert [] + wire == wire; }
    HeaderTurn(s, seed, [], |data|, sig, data + CRLF);
    WrongChunkTurn(s, seed, sig, data, CRLF);
    TwoTurns(s, Between(seed, [], wire), Decoder(ReadingChunk(|data|), data + CRLF, seed, sig, [], false),
             Decoder(ReadingChunk(|data|), CRLF, seed, sig, [], false), data, SignatureMismatch);
  }

  /** The wrong signature is reported once, with the five bytes delivered; an empty push behind it succeeds, and
      delivers the line end as if it were data. */
  lemma MismatchThenSuccess(s: Signer, seed: Bytes)
    requires !Verifies(s, seed, Ascii("hello"), [48, 48])
    ensures var o := Push(s, Start(seed), WronglySigned());
      && o.error == Some(SignatureMismatch) && o.out == Ascii("hello") && Valid(o.decoder)
      && Push(s, o.decoder, []).error == None && Push(s, o.decoder, []).out == CRLF
  {
    WrongHeaderLine();
    WrongPush(s, seed, [48, 48], Ascii("hello"), WronglySigned());
    var e := Decoder(ReadingChunk(5), CRLF, seed, [48, 48], [], false);
    assert e.buf + [] == CRLF;
    PushIntoChunk(s, e, []);
  }

  // ---- the decoder as the object it is ----

  /** One turn took the decoder to `now`, delivering `out`; the loop goes on if `more`. */
  ghost predicate Took(t: Turn, was: Decoder, now: Decoder, out: Bytes, more: bool, error: Option<Error>) {
    match t
    case Stop => !more && error == None && now == was && out == []
    case Go(next, chunk) => more && error == None && now == next && out == chunk
    case Fail(next, chunk, e) => !more && error == Some(e) && now == next && out == chunk
  }

  /** `rest` is what is left to do of `whole` once the pieces `before` have grown to `out`. */
  ghost predicate LeavesToDo(whole: Outcome, before: seq<Bytes>, out: seq<Bytes>, rest: Outcome) {
    whole.decoder == rest.decoder && whole.error == rest.error && Concat(before) + whole.out == Concat(out) + rest.out
  }

  lemma OneTurnContinues(s: Signer, whole: Outcome, before: seq<Bytes>, out: seq<Bytes>, d: Decoder, now: Decoder,
                         chunk: Bytes, more: bool, error: Option<Error>)
    requires Valid(d) && Took(OneTurn(s, d), d, now, chunk, more, error)
    requires LeavesToDo(whole, before, out, Drain(s, d))
    ensures more ==>
      Valid(now) && |now.buf| < |d.buf| && LeavesToDo(whole, before, out + [chunk], Drain(s, now))
      && (chunk == [] ==> LeavesToDo(whole, before, out, Drain(s, now)))
    ensures !more ==>
      whole.decoder == now && whole.error == error && Concat(before) + whole.out == Concat(out) + chunk
  {
    TurnProgress(s, d);
    ConcatSnoc(out, chunk);
    if more {
      Associative(Concat(out), chunk, Drain(s, now).out);
      if chunk == [] { assert Concat(out) + chunk == Concat(out); }
    } else {
      assert chunk + [] == chunk;
    }
  }

  class StreamDecoder {
    const signer: Signer
    var prevSignature: Bytes
    var buf: Bytes
    var state: State
    var finished: bool
    var pendingSig: Bytes
    var chunkData: Bytes

    function Contents(): Decoder
      reads this
    {
      Decoder(state, buf, prevSignature, pendingSig, chunkData, finished)
    }

    constructor (signer: Signer, seedSignature: Bytes)
      ensures this.signer == signer && Contents() == Start(seedSignature)
    {
      this.signer := signer;
      prevSignature, buf, state := seedSignature, [], ReadingHeader;
      finished, pendingSig, chunkData := false, [], [];
    }

    method VerifyChunk(data: Bytes) returns (ok: bool)
      modifies this`prevSignature
      ensures ok <==> Verifies(signer, old(prevSignature), data, pendingSig)
      ensures prevSignature == if ok then pendingSig else old(prevSignature)
    {
      var expected := Signature(signer, prevSignature, data);
      if expected != Lower(pendingSig) { return false; }
      prevSignature := pendingSig;
      ok := true;
    }

    method UseHeader(h: Header) returns (more: bool, error: Option<Error>)
      requires state.ReadingHeader? && (h.Header? ==> h.consumed <= |buf|)
      modifies this
      ensures Took(AfterHeader(signer, old(Contents()), h), old(Contents()), Contents(), [], more, error)
    {
      more, error := false, None;
      match h {
        case NeedMore =>
        case Malformed => error := Some(MalformedPayload);
        case Header(size, sig, consumed) =>
          pendingSig, buf := sig, buf[consumed..];
          if size == 0 {
            state, finished := Done, true;
            more := VerifyChunk([]);
            error := if more then None else Some(SignatureMismatch);
          } else {
            state, more := ReadingChunk(size), true;
          }
      }
    }

    method ReadChunk(remaining: nat) returns (chunk: Bytes, more: bool, error: Option<Error>)
      requires state == ReadingChunk(remaining)
      modifies this
      ensures Took(OneTurn(signer, old(Contents())), old(Contents()), Contents(), chunk, more, error)
    {
      chunk, more, error := [], false, None;
      if buf == [] { return; }
      var take := Min(remaining, |buf|);
      chunk, buf := buf[..take], buf[take..];
      chunkData := chunkData + chunk;
      if remaining == take {
        var full := chunkData;
        chunkData := [];
        more := VerifyChunk(full);
        if more { state := ReadingChunkTrailer; } else { error := Some(SignatureMismatch); }
      } else {
        state, more := ReadingChunk(remaining - take), true;
      }
    }

    method ReadTrailer() returns (more: bool, error: Option<Error>)
      requires state.ReadingChunkTrailer?
      modifies this
      ensures Took(OneTurn(signer, old(Contents())), old(Contents()), Contents(), [], more, error)
    {
      more, error := false, None;
      if |buf| < 2 { return; }
      if buf[..2] == CRLF {
        buf, state, more := buf[2..], ReadingHeader, true;
      } else {
        error := Some(MalformedPayload);
      }
    }

    /** `push`: appends to the buffer and runs the state machine until it needs more bytes, the stream ends
        or an error turns up. The pieces `before` stand for those already in the output vector. */
    method Push(data: Bytes, before: seq<Bytes>) returns (out: seq<Bytes>, error: Option<Error>)
      requires Valid(Contents())
      modifies this
      ensures var o := ChunkDecoder.Push(signer, old(Contents()), data);
        Contents() == o.decoder && error == o.error && Concat(out) == Concat(before) + o.out
    {
      out, error := before, None;
      if finished {
        assert Concat(before) + [] == Concat(before);
        return;
      }
      buf := buf + data;
      ghost var whole := Drain(signer, Contents());
      var more := true;
      while more
        invariant more ==> Valid(Contents()) && error == None
        invariant more ==> LeavesToDo(whole, before, out, Drain(signer, Contents()))
        invariant !more ==>
          whole.decoder == Contents() && whole.error == error && Concat(before) + whole.out == Concat(out)
        decreases more, |buf|
      {
        ghost var was, pieces := Contents(), out;
        ghost var chunk: Bytes := [];
        match state {
          case ReadingHeader => more, error := UseHeader(ParseHeader(buf));
          case ReadingChunk(remaining) =>
            var some: Bytes;
            some, more, error := ReadChunk(remaining);
            chunk := some;
            if some != [] { out := out + [some]; }
          case ReadingChunkTrailer => more, error := ReadTrailer();
          case Done => more := false;
        }
        OneTurnContinues(signer, whole, before, pieces, was, Contents(), chunk, more, error);
        if !more {
          ConcatSnoc(pieces, chunk);
          assert chunk == [] ==> Concat(pieces) + chunk == Concat(pieces);
        }
      }
    }
  }
}
