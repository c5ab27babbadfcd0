/** Request bodies as the storage engine receives them: streams of pieces that may fail. */
module Bodies {
  import opened ByteStrings
  import opened Objects

  /** An element of a request body as a stream: some bytes, or a failure of the stream. */
  datatype Piece = Chunk(bytes: Bytes) | Broken(code: nat)

  function ChunksOf(body: seq<Piece>): seq<Bytes> {
    if body == [] then []
    else
      var last := body[|body| - 1];
      ChunksOf(body[..|body| - 1]) + (if last.Chunk? then [last.bytes] else [])
  }

  function BodyBytes(body: seq<Piece>): Bytes {
    Concat(ChunksOf(body))
  }

  lemma {:induction false} ChunksAppend(a: seq<Piece>, b: seq<Piece>)
    ensures ChunksOf(a + b) == ChunksOf(a) + ChunksOf(b)
  {
    if b == [] {
      assert a + b == a;
    } else {
      assert (a + b)[..|a + b| - 1] == a + b[..|b| - 1];
      ChunksAppend(a, b[..|b| - 1]);
    }
  }

  /** The bytes of a body are those of its pieces, one behind the other. */
  lemma BodyAppend(a: seq<Piece>, b: seq<Piece>)
    ensures BodyBytes(a + b) == BodyBytes(a) + BodyBytes(b)
  {
    ChunksAppend(a, b);
    ConcatAppend(ChunksOf(a), ChunksOf(b));
  }

  lemma BodyOfOne(piece: Piece)
    ensures BodyBytes([]) == [] && BodyBytes([piece]) == if piece.Chunk? then piece.bytes else []
  {
    assert [piece][..0] == [] && ChunksOf([piece][..0]) == [];
    if piece.Chunk? {
      assert ChunksOf([piece]) == [piece.bytes];
      ConcatSnoc([], piece.bytes);
      assert [] + [piece.bytes] == [piece.bytes];
    }
  }

  /** A body is intact if no piece of it is broken and it has at most 5 GiB. */
  lemma IntactIff(body: seq<Piece>)
    ensures Intact(body, |body|) <==>
      (forall piece :: piece in body ==> piece.Chunk?) && |BodyBytes(body)| <= 5368709120
  {
    assert body[..|body|] == body;
  }

  /** The stream up to `i` is intact and not too long. */
  ghost predicate Intact(body: seq<Piece>, i: nat)
    requires i <= |body|
  {
    (forall j :: 0 <= j < i ==> body[j].Chunk?) && |BodyBytes(body[..i])| <= MAX_OBJECT_SIZE
  }

  lemma BodyStep(body: seq<Piece>, i: nat)
    requires i < |body|
    ensures BodyBytes(body[..i + 1]) == BodyBytes(body[..i]) + (if body[i].Chunk? then body[i].bytes else [])
  {
    assert body[..i + 1][..i] == body[..i];
    if body[i].Chunk? {
      ConcatSnoc(ChunksOf(body[..i]), body[i].bytes);
    } else {
      assert ChunksOf(body[..i]) + [] == ChunksOf(body[..i]);
    }
  }

  lemma {:induction false} IntactPrefix(body: seq<Piece>, i: nat, j: nat)
    requires i <= j <= |body| && Intact(body, j)
    ensures Intact(body, i)
    decreases j - i
  {
    if i < j {
      BodyStep(body, j - 1);
      IntactPrefix(body, i, j - 1);
    }
  }
}
