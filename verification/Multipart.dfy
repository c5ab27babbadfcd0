/** The multipart state machine: create, upload part, complete, abort, each as one atomic operation. */
module Multipart {
  import opened ByteStrings
  import opened Sorting
  import opened Objects
  import opened Bodies
  import InstallSafety
  import Install

  const DASH: byte := 45
  const BODY_LIMIT: nat := 4 * 1024 * 1024

  type Id = nat

  /** What the manifest records of a part: ETag and size. */
  datatype Entry = Entry(etag: Bytes, size: nat)

  datatype Manifest = Manifest(loc: Loc, attrs: Attrs, parts: map<nat, Entry>)

  /** A part number and an ETag, as listed in a completion request. */
  datatype Listed = Listed(number: nat, etag: Bytes)

  datatype Error = NoSuchBucket | NoSuchUpload | InvalidPartOrder | InvalidPart | EntityTooSmall | EntityTooLarge
                 | BodyFailed(code: nat) | Internal

  datatype Result<+T> = Ok(value: T) | Err(error: Error)

  /** Piece `i` is the first that breaks the stream or makes it too long, and `error` says which. */
  ghost predicate BreaksAt(body: seq<Piece>, i: nat, error: Error) {
    && i < |body| && Intact(body, i)
    && match body[i]
       case Broken(code) => error == BodyFailed(code)
       case Chunk(_) => error == EntityTooLarge && !Intact(body, i + 1)
  }

  /** The receiving loop of `upload_part` (and of `put_object`): either the whole body, which is intact, or
      the error of the piece at which it breaks. */
  method Receive(body: seq<Piece>) returns (r: Result<Bytes>)
    ensures r.Ok? <==> Intact(body, |body|)
    ensures r.Ok? ==> r.value == BodyBytes(body)
    ensures r.Err? ==> exists i: nat :: BreaksAt(body, i, r.error)
  {
    var size, written: Bytes := 0, [];
    for i := 0 to |body|
      invariant Intact(body, i) && written == BodyBytes(body[..i]) && size == |written|
    {
      BodyStep(body, i);
      match body[i] {
        case Broken(code) =>
          assert BreaksAt(body, i, BodyFailed(code));
          return Err(BodyFailed(code));
        case Chunk(c) =>
          size := size + |c|;
          if size > MAX_OBJECT_SIZE {
            assert BreaksAt(body, i, EntityTooLarge);
            if Intact(body, |body|) { IntactPrefix(body, i + 1, |body|); }
            return Err(EntityTooLarge);
          }
          written := written + c;
      }
    }
    assert body[..|body|] == body;
    r := Ok(written);
  }

  // ---- the validation of a completion request ----

  predicate NumberLe(a: Listed, b: Listed) {
    a.number <= b.number
  }

  ghost predicate StrictlyAscending(listed: seq<Listed>) {
    forall i, j :: 0 <= i < j < |listed| ==> listed[i].number < listed[j].number
  }

  lemma {:induction false} AdjacentIsEnough(listed: seq<Listed>, i: nat, j: nat)
    requires forall k :: 0 <= k < |listed| - 1 ==> listed[k].number < listed[k + 1].number
    requires i < j < |listed|
    ensures listed[i].number < listed[j].number
    decreases j - i
  {
    if i + 1 < j { AdjacentIsEnough(listed, i + 1, j); }
  }

  lemma NumberLeIsTotalPreorder()
    ensures TotalPreorder(NumberLe)
  {}

  /** Sort, compare neighbours, compare with the original: this accepts exactly the strictly ascending
      lists, and then the sorted list is the given one. */
  method InOrder(listed: seq<Listed>) returns (ordered: seq<Listed>, ok: bool)
    ensures ok <==> StrictlyAscending(listed)
    ensures ok ==> ordered == listed
  {
    ordered := Sort(NumberLe, listed);
    NumberLeIsTotalPreorder();
    SortSorted(NumberLe, listed);
    if StrictlyAscending(listed) { SortFixesSorted(NumberLe, listed); }
    assert |ordered| == |listed| by { assert |multiset(ordered)| == |ordered| && |multiset(listed)| == |listed|; }
    for i := 0 to |ordered|
      invariant forall k :: 0 <= k < i && k + 1 < |ordered| ==> ordered[k].number != ordered[k + 1].number
    {
      if i + 1 < |ordered| && ordered[i].number == ordered[i + 1].number { return ordered, false; }
    }
    for i := 0 to |ordered|
      invariant forall k :: 0 <= k < i ==> ordered[k].number == listed[k].number
    {
      if ordered[i].number != listed[i].number { return ordered, false; }
    }
    forall k | 0 <= k < |listed| - 1
      ensures listed[k].number < listed[k + 1].number
    {
      assert NumberLe(ordered[k], ordered[k + 1]);
    }
    forall i, j | 0 <= i < j < |listed|
      ensures listed[i].number < listed[j].number
    {
      AdjacentIsEnough(listed, i, j);
    }
    ok := true;
  }

  predicate Matches(m: Manifest, l: Listed) {
    l.number in m.parts && m.parts[l.number].etag == l.etag
  }

  ghost predicate AllMatch(m: Manifest, listed: seq<Listed>) {
    forall l :: l in listed ==> Matches(m, l)
  }

  method CheckParts(m: Manifest, ordered: seq<Listed>) returns (ok: bool)
    ensures ok <==> AllMatch(m, ordered)
  {
    for i := 0 to |ordered|
      invariant forall k :: 0 <= k < i ==> Matches(m, ordered[k])
    {
      if !Matches(m, ordered[i]) { return false; }
    }
    ok := true;
  }

  function SizeOf(m: Manifest, l: Listed): nat {
    if l.number in m.parts then m.parts[l.number].size else 0
  }

  /** Every part but the last has the minimal size. */
  ghost predicate BigEnough(m: Manifest, listed: seq<Listed>) {
    forall i :: 0 <= i < |listed| - 1 ==> SizeOf(m, listed[i]) >= MIN_PART_SIZE
  }

  method CheckSizes(m: Manifest, ordered: seq<Listed>) returns (ok: bool)
    ensures ok <==> BigEnough(m, ordered)
  {
    var n := if |ordered| == 0 then 0 else |ordered| - 1;
    for i := 0 to n
      invariant forall k :: 0 <= k < i ==> SizeOf(m, ordered[k]) >= MIN_PART_SIZE
    {
      if SizeOf(m, ordered[i]) < MIN_PART_SIZE { return false; }
    }
    ok := true;
  }

  // ---- assembly ----

  /** The manifest tells the truth about the staged files. */
  ghost predicate Truthful(md5: Md5, m: Manifest, files: map<nat, Bytes>) {
    && m.parts.Keys == files.Keys
    && forall n :: n in files ==>
         m.parts[n] == Entry(PlainEtag(md5, files[n]), |files[n]|) && |files[n]| <= MAX_OBJECT_SIZE
  }

  function FileOf(files: map<nat, Bytes>, l: Listed): Bytes {
    if l.number in files then files[l.number] else []
  }

  /** The contents of the listed parts, in the order of the list. */
  function PartsOf(files: map<nat, Bytes>, listed: seq<Listed>): (parts: seq<Bytes>)
    ensures |parts| == |listed|
  {
    seq(|listed|, i requires 0 <= i < |listed| => FileOf(files, listed[i]))
  }

  lemma PartsStep(files: map<nat, Bytes>, listed: seq<Listed>, i: nat)
    requires i < |listed|
    ensures PartsOf(files, listed[..i + 1]) == PartsOf(files, listed[..i]) + [FileOf(files, listed[i])]
  {}

  ghost predicate AllFound(found: map<nat, Bytes>, listed: seq<Listed>) {
    forall l :: l in listed ==> l.number in found
  }

  /** Copies the part files one behind the other, up to the first that is not there. */
  method Assemble(found: map<nat, Bytes>, ordered: seq<Listed>) returns (out: Bytes, ok: bool)
    ensures ok <==> AllFound(found, ordered)
    ensures ok ==> out == Concat(PartsOf(found, ordered))
  {
    out := [];
    for i := 0 to |ordered|
      invariant out == Concat(PartsOf(found, ordered[..i])) && AllFound(found, ordered[..i])
    {
      if ordered[i].number !in found { return out, false; }
      PartsStep(found, ordered, i);
      ConcatSnoc(PartsOf(found, ordered[..i]), FileOf(found, ordered[i]));
      out := out + FileOf(found, ordered[i]);
    }
    assert ordered[..|ordered|] == ordered;
    ok := true;
  }

  lemma DigestsSnoc(md5: Md5, parts: seq<Bytes>, x: Bytes)
    ensures Digests(md5, parts + [x]) == Digests(md5, parts) + md5(x)
  {
    DigestsAppend(md5, parts, [x]);
    DigestOfOne(md5, x);
  }

  /** The raw digest that a recorded ETag stands for; sixteen zeros should it not be hexadecimal. */
  function RawDigest(etag: Bytes): Bytes {
    match Unhex(etag)
    case Some(raw) => raw
    case None => seq(16, _ => 0)
  }

  /** The fallback is never taken: recorded ETags are the printed digests of the staged files. */
  lemma FallbackNotTaken(md5: Md5, m: Manifest, files: map<nat, Bytes>, n: nat)
    requires Truthful(md5, m, files) && n in m.parts
    ensures n in files && Unhex(m.parts[n].etag) == Some(md5(files[n]))
  {
    UnhexHex(md5(files[n]));
  }

  /** The digests that the manifest notes for the listed parts, one behind the other. */
  function NotedDigests(m: Manifest, listed: seq<Listed>): Bytes
    requires AllMatch(m, listed)
  {
    if listed == [] then []
    else
      var l := listed[|listed| - 1];
      assert Matches(m, l);
      NotedDigests(m, listed[..|listed| - 1]) + RawDigest(m.parts[l.number].etag)
  }

  function NotedSize(m: Manifest, listed: seq<Listed>): nat {
    if listed == [] then 0 else NotedSize(m, listed[..|listed| - 1]) + SizeOf(m, listed[|listed| - 1])
  }

  method Digest(md5: Md5, m: Manifest, ordered: seq<Listed>) returns (etag: Bytes)
    requires AllMatch(m, ordered)
    ensures etag == Hex(md5(NotedDigests(m, ordered))) + [DASH] + Decimal(|ordered|)
  {
    var hashed: Bytes := [];
    for i := 0 to |ordered|
      invariant hashed == NotedDigests(m, ordered[..i])
    {
      assert Matches(m, ordered[i]) && ordered[..i + 1][..i] == ordered[..i];
      hashed := hashed + RawDigest(m.parts[ordered[i].number].etag);
    }
    assert ordered[..|ordered|] == ordered;
    etag := Hex(md5(hashed)) + [DASH] + Decimal(|ordered|);
  }

  method TotalSize(m: Manifest, ordered: seq<Listed>) returns (total: nat)
    ensures total == NotedSize(m, ordered)
  {
    total := 0;
    for i := 0 to |ordered|
      invariant total == NotedSize(m, ordered[..i])
    {
      assert ordered[..i + 1][..i] == ordered[..i];
      total := total + SizeOf(m, ordered[i]);
    }
    assert ordered[..|ordered|] == ordered;
  }

  /** A truthful manifest notes the digests and the sizes of the staged parts. */
  lemma {:induction false} NotedIsTrue(md5: Md5, m: Manifest, files: map<nat, Bytes>, listed: seq<Listed>)
    requires Truthful(md5, m, files) && AllMatch(m, listed)
    ensures NotedDigests(m, listed) == Digests(md5, PartsOf(files, listed))
    ensures NotedSize(m, listed) == |Concat(PartsOf(files, listed))|
  {
    if listed != [] {
      var i := |listed| - 1;
      NotedIsTrue(md5, m, files, listed[..i]);
      assert Matches(m, listed[i]) && listed[..i + 1] == listed;
      FallbackNotTaken(md5, m, files, listed[i].number);
      PartsStep(files, listed, i);
      DigestsSnoc(md5, PartsOf(files, listed[..i]), files[listed[i].number]);
      ConcatSnoc(PartsOf(files, listed[..i]), files[listed[i].number]);
    }
  }

  predicate SizesBounded(m: Manifest) {
    forall n :: n in m.parts ==> m.parts[n].size <= MAX_OBJECT_SIZE
  }

  lemma {:induction false} SumBound(m: Manifest, listed: seq<Listed>, i: nat)
    requires SizesBounded(m) && i <= |listed|
    ensures NotedSize(m, listed[..i]) <= i * MAX_OBJECT_SIZE
  {
    if i > 0 {
      SumBound(m, listed, i - 1);
      assert listed[..i][..i - 1] == listed[..i - 1];
    }
  }

  /** A completion request of at most 4 MiB cannot list enough parts for the 64-bit sum of their sizes to
      wrap at any point: a listed part takes a byte of the request at least. */
  lemma SumNeverWraps(m: Manifest, listed: seq<Listed>, i: nat)
    requires SizesBounded(m) && i <= |listed| <= BODY_LIMIT
    ensures NotedSize(m, listed[..i]) < 0x1_0000_0000_0000_0000
  {
    SumBound(m, listed, i);
    assert i * MAX_OBJECT_SIZE <= BODY_LIMIT * MAX_OBJECT_SIZE;
  }

  // ---- the operations ----

  ghost predicate Accepts(m: Manifest, listed: seq<Listed>) {
    StrictlyAscending(listed) && AllMatch(m, listed) && BigEnough(m, listed)
  }

  /** Which of the checks, in their order, a list that is not accepted fails. */
  ghost function Rejection(m: Manifest, listed: seq<Listed>): Error {
    if !StrictlyAscending(listed) then InvalidPartOrder
    else if !AllMatch(m, listed) then InvalidPart
    else EntityTooSmall
  }

  /** A completion request is accepted if and only if its part numbers ascend strictly, every part is known under the
      ETag listed for it, and all but the last have at least 5 MiB. */
  lemma AcceptsIff(m: Manifest, listed: seq<Listed>)
    ensures Accepts(m, listed) <==>
      && (forall i, j :: 0 <= i < j < |listed| ==> listed[i].number < listed[j].number)
      && (forall l :: l in listed ==> l.number in m.parts && m.parts[l.number].etag == l.etag)
      && (forall i :: 0 <= i < |listed| - 1 ==> SizeOf(m, listed[i]) >= 5242880)
    ensures forall l: Listed :: l.number in m.parts ==> SizeOf(m, l) == m.parts[l.number].size
  {
    if AllMatch(m, listed) {
      forall l | l in listed ensures l.number in m.parts && m.parts[l.number].etag == l.etag { assert Matches(m, l); }
    }
    if forall l :: l in listed ==> l.number in m.parts && m.parts[l.number].etag == l.etag {
      forall l | l in listed ensures Matches(m, l) {}
    }
  }

  /** The checks come in this order, and the first that fails gives the error. */
  lemma RejectionIs(m: Manifest, listed: seq<Listed>)
    requires !Accepts(m, listed)
    ensures Rejection(m, listed) == InvalidPartOrder <==>
      exists i, j :: 0 <= i < j < |listed| && listed[i].number >= listed[j].number
    ensures Rejection(m, listed) == InvalidPart <==>
      && (forall i, j :: 0 <= i < j < |listed| ==> listed[i].number < listed[j].number)
      && exists l :: l in listed && !(l.number in m.parts && m.parts[l.number].etag == l.etag)
    ensures Rejection(m, listed) in {InvalidPartOrder, InvalidPart, EntityTooSmall}
  {
    if !AllMatch(m, listed) {
      var l :| l in listed && !Matches(m, l);
      assert l in listed && !(l.number in m.parts && m.parts[l.number].etag == l.etag);
    }
    if l :| l in listed && !(l.number in m.parts && m.parts[l.number].etag == l.etag) { assert !Matches(m, l); }
  }

  /** The object that a completed upload should become. */
  function Assembled(md5: Md5, m: Manifest, parts: seq<Bytes>): Version {
    Version(m.loc.key, |Concat(parts)|, MultipartEtag(md5, parts), m.attrs, Concat(parts))
  }

  /** What completion stores: size and ETag by the manifest, read before the lock is taken, and the bytes of the
      part files, found when each is opened. */
  function Stitched(md5: Md5, m: Manifest, found: map<nat, Bytes>, listed: seq<Listed>): Version
    requires AllMatch(m, listed)
  {
    Version(m.loc.key, NotedSize(m, listed), Hex(md5(NotedDigests(m, listed))) + [DASH] + Decimal(|listed|), m.attrs,
            Concat(PartsOf(found, listed)))
  }

  /** The staged files of an upload with part `n` written, or written anew. */
  function WithPart(files: map<nat, Bytes>, n: nat, data: Bytes): (r: map<nat, Bytes>)
    ensures r.Keys == files.Keys + {n} && r[n] == data && forall k :: k in files && k != n ==> r[k] == files[k]
  {
    files[n := data]
  }

  /** What is at stake when a part is renamed into its place and its manifest entry is then not written, by an
      error or a crash between the two: the manifest stays truthful just if it had the very same entry. */
  lemma TornUploadIff(md5: Md5, m: Manifest, files: map<nat, Bytes>, n: nat, data: Bytes)
    requires Truthful(md5, m, files) && |data| <= MAX_OBJECT_SIZE
    ensures Truthful(md5, m, WithPart(files, n, data))
      <==> n in m.parts && m.parts[n] == Entry(PlainEtag(md5, data), |data|)
  {
    var torn := WithPart(files, n, data);
    assert n in torn && torn[n] == data;
    if n in m.parts && m.parts[n] == Entry(PlainEtag(md5, data), |data|) {
      assert torn.Keys == files.Keys;
    }
  }

  datatype Part = Part(number: nat, data: Bytes)

  function EntryOf(md5: Md5, p: Part): Entry {
    Entry(PlainEtag(md5, p.data), |p.data|)
  }

  function Noted(md5: Md5, m: Manifest, p: Part): Manifest {
    m.(parts := m.parts[p.number := EntryOf(md5, p)])
  }

  lemma NotedUpload(md5: Md5, m: Manifest, files: map<nat, Bytes>, p: Part)
    requires Truthful(md5, m, files) && |p.data| <= MAX_OBJECT_SIZE
    ensures Truthful(md5, Noted(md5, m, p), WithPart(files, p.number, p.data))
  {}

  /** The staged files after two renames. */
  function WithTwo(files: map<nat, Bytes>, first: Part, last: Part): map<nat, Bytes> {
    WithPart(WithPart(files, first.number, first.data), last.number, last.data)
  }

  lemma TwoRenames(files: map<nat, Bytes>, a: Part, b: Part)
    ensures a.number == b.number ==> WithTwo(files, a, b) == WithPart(files, b.number, b.data)
    ensures a.number != b.number ==> WithTwo(files, a, b) == WithTwo(files, b, a)
  {}

  /** Two uploads that both read the manifest before either wrote it: `kept` writes it last, and the entry of `lost`
      is gone. For parts of different numbers, renamed in either order, the manifest is truthful just if it had that
      entry from before. For one part number it is truthful if `kept` is also renamed last, and else just if both have
      the same entry. */
  lemma LostEntryIff(md5: Md5, m: Manifest, files: map<nat, Bytes>, lost: Part, kept: Part)
    requires Truthful(md5, m, files) && |lost.data| <= MAX_OBJECT_SIZE && |kept.data| <= MAX_OBJECT_SIZE
    ensures lost.number != kept.number ==> WithTwo(files, lost, kept) == WithTwo(files, kept, lost)
    ensures Truthful(md5, Noted(md5, m, kept), WithTwo(files, kept, lost)) <==>
      if lost.number == kept.number then EntryOf(md5, lost) == EntryOf(md5, kept)
      else lost.number in m.parts && m.parts[lost.number] == EntryOf(md5, lost)
    ensures lost.number == kept.number ==> Truthful(md5, Noted(md5, m, kept), WithTwo(files, lost, kept))
  {
    NotedUpload(md5, m, files, kept);
    TornUploadIff(md5, Noted(md5, m, kept), WithPart(files, kept.number, kept.data), lost.number, lost.data);
    TwoRenames(files, lost, kept);
  }

  // ---- what a completion stores, and when it is true ----

  lemma SuffixInjective(a: Bytes, b: Bytes, c: Bytes)
    requires a + c == b + c
    ensures a == b
  {
    assert |a| == |b|;
    assert (a + c)[..|a|] == a && (b + c)[..|b|] == b;
  }

  lemma NumberedEtagIff(md5: Md5, a: Bytes, b: Bytes, n: nat)
    ensures Hex(md5(a)) + [DASH] + Decimal(n) == Hex(md5(b)) + [DASH] + Decimal(n) <==> md5(a) == md5(b)
  {
    if Hex(md5(a)) + [DASH] + Decimal(n) == Hex(md5(b)) + [DASH] + Decimal(n) {
      Associative(Hex(md5(a)), [DASH], Decimal(n));
      Associative(Hex(md5(b)), [DASH], Decimal(n));
      SuffixInjective(Hex(md5(a)), Hex(md5(b)), [DASH] + Decimal(n));
      HexInjective(md5(a), md5(b));
    }
  }

  /** With the parts as the manifest describes them, the listed parts one behind the other. */
  lemma StitchedIsAssembled(md5: Md5, m: Manifest, files: map<nat, Bytes>, listed: seq<Listed>)
    requires Truthful(md5, m, files) && AllMatch(m, listed)
    ensures Stitched(md5, m, files, listed) == Assembled(md5, m, PartsOf(files, listed))
  {
    NotedIsTrue(md5, m, files, listed);
  }

  /** Parts uploaded again after the manifest `m` was read: what is stored is the object that the parts found make
      up if and only if their total length is the noted one, and the digest over the digests of the parts is. In
      particular it is so when no listed part was uploaded again. */
  lemma StalePartsIff(md5: Md5, m: Manifest, files: map<nat, Bytes>, found: map<nat, Bytes>, listed: seq<Listed>)
    requires Truthful(md5, m, files) && AllMatch(m, listed)
    ensures var noted, now := PartsOf(files, listed), PartsOf(found, listed);
      && (Stitched(md5, m, found, listed) == Assembled(md5, m, now) <==>
          |Concat(noted)| == |Concat(now)| && md5(Digests(md5, noted)) == md5(Digests(md5, now)))
    ensures (forall l :: l in listed ==> FileOf(found, l) == FileOf(files, l)) ==>
      Stitched(md5, m, found, listed) == Assembled(md5, m, PartsOf(files, listed))
  {
    NotedIsTrue(md5, m, files, listed);
    NumberedEtagIff(md5, Digests(md5, PartsOf(files, listed)), Digests(md5, PartsOf(found, listed)), |listed|);
    if forall l :: l in listed ==> FileOf(found, l) == FileOf(files, l) {
      assert PartsOf(found, listed) == PartsOf(files, listed);
    }
  }

  ghost predicate AllTruthful(md5: Md5, manifests: map<Id, Manifest>, staged: map<Id, map<nat, Bytes>>)
    requires manifests.Keys == staged.Keys
  {
    forall id :: id in manifests ==> Truthful(md5, manifests[id], staged[id])
  }

  /** A change of one upload is judged by that upload. */
  lemma TruthfulUpdate(md5: Md5, manifests: map<Id, Manifest>, staged: map<Id, map<nat, Bytes>>, id: Id, m: Manifest,
                       files: map<nat, Bytes>)
    requires manifests.Keys == staged.Keys && AllTruthful(md5, manifests, staged)
    ensures AllTruthful(md5, manifests[id := m], staged[id := files]) <==> Truthful(md5, m, files)
  {
    var ms, fs := manifests[id := m], staged[id := files];
    if AllTruthful(md5, ms, fs) { assert id in ms && ms[id] == m && fs[id] == files; }
  }

  lemma TornIsJudged(md5: Md5, manifests: map<Id, Manifest>, staged: map<Id, map<nat, Bytes>>, id: Id, n: nat,
                     data: Bytes)
    requires manifests.Keys == staged.Keys && id in manifests && |data| <= MAX_OBJECT_SIZE
    ensures AllTruthful(md5, manifests, staged) ==>
      (AllTruthful(md5, manifests, staged[id := WithPart(staged[id], n, data)]) <==>
        n in manifests[id].parts && manifests[id].parts[n] == Entry(PlainEtag(md5, data), |data|))
  {
    if AllTruthful(md5, manifests, staged) {
      TornUploadIff(md5, manifests[id], staged[id], n, data);
      TruthfulUpdate(md5, manifests, staged, id, manifests[id], WithPart(staged[id], n, data));
      assert manifests[id := manifests[id]] == manifests;
    }
  }

  lemma UploadIsJudged(md5: Md5, manifests: map<Id, Manifest>, staged: map<Id, map<nat, Bytes>>, id: Id, p: Part)
    requires manifests.Keys == staged.Keys && id in manifests && |p.data| <= MAX_OBJECT_SIZE
    ensures AllTruthful(md5, manifests, staged) ==>
      AllTruthful(md5, manifests[id := Noted(md5, manifests[id], p)],
                  staged[id := WithPart(staged[id], p.number, p.data)])
  {
    if AllTruthful(md5, manifests, staged) {
      NotedUpload(md5, manifests[id], staged[id], p);
      TruthfulUpdate(md5, manifests, staged, id, Noted(md5, manifests[id], p),
                     WithPart(staged[id], p.number, p.data));
    }
  }

  /** Where a file call of an upload fails: nowhere, before the part is renamed into its place, or after. */
  datatype Fault = Nowhere | BeforeRename | AfterRename

  class Engine {
    const md5: Md5
    var buckets: set<Bytes>
    var manifests: map<Id, Manifest>
    var staged: map<Id, map<nat, Bytes>>
    var objects: map<Loc, Version>

    ghost predicate Valid()
      reads this
    {
      manifests.Keys == staged.Keys && forall id :: id in manifests ==> SizesBounded(manifests[id])
    }

    /** Every manifest tells the truth about its staged files, and every object's size and ETag are true. */
    ghost predicate Honest()
      requires Valid()
      reads this
    {
      && AllTruthful(md5, manifests, staged)
      && (forall loc :: loc in objects ==>
            |objects[loc].bytes| == objects[loc].size && EtagOk(md5, objects[loc].etag, objects[loc].bytes))
    }

    constructor (md5: Md5, buckets: set<Bytes>)
      ensures Valid() && Honest() && this.md5 == md5 && this.buckets == buckets
      ensures manifests == map[] && staged == map[] && objects == map[]
    {
      this.md5, this.buckets := md5, buckets;
      manifests, staged, objects := map[], map[], map[];
    }

    /** `create_multipart`; `id` is the UUID drawn for the upload. */
    method CreateMultipart(loc: Loc, attrs: Attrs, id: Id) returns (r: Result<Id>)
      requires Valid() && id !in manifests
      modifies this`manifests, this`staged
      ensures Valid() && (old(Honest()) ==> Honest())
      ensures r == if loc.bucket in buckets then Ok(id) else Err(NoSuchBucket)
      ensures r.Ok? ==>
        manifests == old(manifests)[id := Manifest(loc, attrs, map[])] && staged == old(staged)[id := map[]]
      ensures r.Err? ==> manifests == old(manifests) && staged == old(staged)
    {
      if loc.bucket !in buckets { return Err(NoSuchBucket); }
      staged := staged[id := map[]];
      manifests := manifests[id := Manifest(loc, attrs, map[])];
      r := Ok(id);
    }

    /** `upload_part`: a part is staged, or replaced, with its entry; an error leaves everything as it was, unless
        it comes behind the rename of the part. Then the part is there without its entry, and the manifest stays
        truthful just if it had the very same entry. */
    method UploadPart(id: Id, n: nat, body: seq<Piece>, fault: Fault) returns (r: Result<Entry>)
      requires Valid()
      modifies this`manifests, this`staged
      ensures Valid()
      ensures r.Ok? <==> id in old(manifests) && Intact(body, |body|) && fault == Nowhere
      ensures r.Ok? ==>
        && r.value == Entry(PlainEtag(md5, BodyBytes(body)), |BodyBytes(body)|)
        && manifests == old(manifests)[id := old(manifests)[id].(parts := old(manifests)[id].parts[n := r.value])]
      ensures r.Err? ==> manifests == old(manifests)
      ensures staged ==
        if id in old(manifests) && Intact(body, |body|) && fault != BeforeRename
          then old(staged)[id := WithPart(old(staged)[id], n, BodyBytes(body))]
        else old(staged)
      ensures r.Err? ==>
        if id !in manifests then r.error == NoSuchUpload
        else if Intact(body, |body|) then r.error == Internal
        else exists i: nat :: BreaksAt(body, i, r.error)
      ensures old(Honest()) ==>
        (Honest() <==>
          (r.Err? && id in manifests && Intact(body, |body|) && fault == AfterRename ==>
            && n in manifests[id].parts
            && manifests[id].parts[n] == Entry(PlainEtag(md5, BodyBytes(body)), |BodyBytes(body)|)))
    {
      if id !in manifests { return Err(NoSuchUpload); }
      var received := Receive(body);
      if received.Err? { return Err(received.error); }
      if fault == BeforeRename { return Err(Internal); }
      assert body[..|body|] == body;
      r := KeepPart(id, n, received.value, fault);
    }

    /** The rename of the received part, then the manifest. */
    method KeepPart(id: Id, n: nat, data: Bytes, fault: Fault) returns (r: Result<Entry>)
      requires Valid() && id in manifests && |data| <= MAX_OBJECT_SIZE && fault != BeforeRename
      modifies this`manifests, this`staged
      ensures Valid()
      ensures r == if fault == Nowhere then Ok(Entry(PlainEtag(md5, data), |data|)) else Err(Internal)
      ensures manifests ==
        if r.Ok? then old(manifests)[id := old(manifests)[id].(parts := old(manifests)[id].parts[n := r.value])]
        else old(manifests)
      ensures staged == old(staged)[id := WithPart(old(staged)[id], n, data)]
      ensures old(Honest()) ==>
        (Honest() <==> (r.Err? ==>
          n in manifests[id].parts && manifests[id].parts[n] == Entry(PlainEtag(md5, data), |data|)))
    {
      staged := staged[id := WithPart(staged[id], n, data)];
      if fault == AfterRename {
        TornIsJudged(md5, manifests, old(staged), id, n, data);
        return Err(Internal);
      }
      var entry := Entry(PlainEtag(md5, data), |data|);
      manifests := manifests[id := manifests[id].(parts := manifests[id].parts[n := entry])];
      UploadIsJudged(md5, old(manifests), old(staged), id, Part(n, data));
      r := Ok(entry);
    }

    /** `complete_multipart`: accepts exactly the strictly ascending lists of known, matching parts that are
        big enough, stores the concatenation of the listed parts in order and drops the others with the
        upload; any rejection leaves uploads and objects as they were. So does a file call of the assembly
        that fails, as `failing` says, or a part file that is gone. The files are `found` as other requests have
        left them since the manifest was read; where they are those of the upload, all of its size and ETag is
        true. */
    method CompleteMultipart(id: Id, listed: seq<Listed>, found: map<nat, Bytes>, failing: bool)
      returns (r: Result<Version>)
      requires Valid()
      modifies this`manifests, this`staged, this`objects
      ensures Valid()
      ensures r.Ok? <==>
        id in old(manifests) && Accepts(old(manifests)[id], listed) && AllFound(found, listed) && !failing
      ensures r.Ok? ==>
        && r.value == Stitched(md5, old(manifests)[id], found, listed)
        && objects == old(objects)[old(manifests)[id].loc := r.value]
        && manifests == old(manifests) - {id} && staged == old(staged) - {id}
      ensures r.Err? ==> manifests == old(manifests) && staged == old(staged) && objects == old(objects)
      ensures r.Err? ==>
        r.error ==
          if id !in manifests then NoSuchUpload
          else if Accepts(manifests[id], listed) then Internal
          else Rejection(manifests[id], listed)
      ensures old(Honest()) && r.Ok? && found == old(staged)[id] ==>
        r.value == Assembled(md5, old(manifests)[id], PartsOf(found, listed))
      ensures old(Honest()) && (r.Ok? ==> r.value == Assembled(md5, old(manifests)[id], PartsOf(found, listed))) ==>
        Honest()
    {
      if id !in manifests { return Err(NoSuchUpload); }
      var m := manifests[id];
      var ordered, ok := InOrder(listed);
      if !ok { return Err(InvalidPartOrder); }
      ok := CheckParts(m, ordered);
      if !ok { return Err(InvalidPart); }
      ok := CheckSizes(m, ordered);
      if !ok { return Err(EntityTooSmall); }
      if failing { return Err(Internal); }
      var bytes;
      bytes, ok := Assemble(found, ordered);
      if !ok { return Err(Internal); }
      var etag := Digest(md5, m, ordered);
      var size := TotalSize(m, ordered);
      var v := Version(m.loc.key, size, etag, m.attrs, bytes);
      if old(Honest()) { StitchedIsAssembled(md5, m, staged[id], listed); }
      objects := objects[m.loc := v];
      manifests, staged := manifests - {id}, staged - {id};
      r := Ok(v);
    }

    /** `abort_multipart`. */
    method AbortMultipart(id: Id) returns (r: Result<()>)
      requires Valid()
      modifies this`manifests, this`staged
      ensures Valid() && (old(Honest()) ==> Honest())
      ensures r == if id in old(manifests) then Ok(()) else Err(NoSuchUpload)
      ensures manifests == old(manifests) - {id} && staged == old(staged) - {id}
    {
      if id !in manifests {
        assert manifests - {id} == manifests && staged - {id} == staged;
        return Err(NoSuchUpload);
      }
      manifests, staged := manifests - {id}, staged - {id};
      r := Ok(());
    }
  }

  /** What validation accepts is what the install protocol publishes for it, see `Install.JoinNew`. */
  lemma AssembledMeetsGoal(md5: Md5, m: Manifest, parts: seq<Bytes>)
    ensures InstallSafety.Meets(md5, m.loc, Install.Assembly(parts, m.attrs), Assembled(md5, m, parts))
  {
    assert IsMultipartEtag(md5, MultipartEtag(md5, parts), Concat(parts));
  }

  /** A list without parts is accepted too, and makes an empty object whose ETag ends in `-0`. */
  lemma EmptyListAccepted(md5: Md5, m: Manifest)
    ensures Accepts(m, [])
    ensures var v := Assembled(md5, m, []); v.size == 0 && v.bytes == [] && v.etag == Hex(md5([])) + [DASH] + [48]
  {
    assert Digits(0, 10) == [0];
    assert Decimal(0) == [48];
  }
}
