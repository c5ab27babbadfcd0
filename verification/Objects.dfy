/** What an object is to a client: its metadata and its bytes. MD5 is an arbitrary function `md5`. */
module Objects {
  import opened ByteStrings

  type Md5 = Bytes -> Bytes

  const MAX_OBJECT_SIZE: nat := 5 * 1024 * 1024 * 1024
  const MAX_KEY_LENGTH: nat := 1024
  const MIN_PART_SIZE: nat := 5 * 1024 * 1024

  /** 5 GiB, 1024 bytes, 5 MiB. */
  lemma Limits()
    ensures MAX_OBJECT_SIZE == 5368709120 && MAX_KEY_LENGTH == 1024 && MIN_PART_SIZE == 5242880
  {}

  /** The content type and the user metadata, which the storage engine never looks into. */
  datatype Attrs = Attrs(contentType: Bytes, metadata: map<Bytes, Bytes>)

  /** A bucket and a key; SHA-256 sharding is taken to give each its own directory. */
  datatype Loc = Loc(bucket: Bytes, key: Bytes)

  /** One complete version of an object. */
  datatype Version = Version(key: Bytes, size: nat, etag: Bytes, attrs: Attrs, bytes: Bytes)

  /** The name under which the writers of an object exclude each other. */
  function LockName(loc: Loc): Bytes {
    loc.bucket + [0] + loc.key
  }

  /** Two objects share a lock only if they are the same object: no bucket name contains NUL. */
  lemma LockNameInjective(a: Loc, b: Loc)
    requires 0 !in a.bucket && 0 !in b.bucket
    requires LockName(a) == LockName(b)
    ensures a == b
  {
    var n := LockName(a);
    assert n[|a.bucket|] == 0 && n[|b.bucket|] == 0;
    assert forall i :: 0 <= i < |a.bucket| ==> n[i] == a.bucket[i] && n[i] != 0;
    assert forall i :: 0 <= i < |b.bucket| ==> n[i] == b.bucket[i] && n[i] != 0;
    assert a.bucket == n[..|a.bucket|] == b.bucket;
    assert a.key == n[|a.bucket| + 1..] == b.key;
  }

  // ---- ETags ----

  function PlainEtag(md5: Md5, bytes: Bytes): Bytes {
    Hex(md5(bytes))
  }

  function Digests(md5: Md5, parts: seq<Bytes>): Bytes {
    if parts == [] then [] else md5(parts[0]) + Digests(md5, parts[1..])
  }

  /** MD5 over the concatenated part digests, a dash, and the number of parts. */
  function MultipartEtag(md5: Md5, parts: seq<Bytes>): Bytes {
    Hex(md5(Digests(md5, parts))) + [45] + Decimal(|parts|)
  }

  lemma {:induction false} DigestsAppend(md5: Md5, a: seq<Bytes>, b: seq<Bytes>)
    ensures Digests(md5, a + b) == Digests(md5, a) + Digests(md5, b)
  {
    if a == [] {
      assert a + b == b;
    } else {
      assert (a + b)[1..] == a[1..] + b;
      DigestsAppend(md5, a[1..], b);
      Associative(md5(a[0]), Digests(md5, a[1..]), Digests(md5, b));
    }
  }

  lemma DigestOfOne(md5: Md5, part: Bytes)
    ensures Digests(md5, [part]) == md5(part)
  {
    assert [part][1..] == [] && md5(part) + [] == md5(part);
  }

  lemma HexHasNoDash(b: Bytes)
    ensures 45 !in Hex(b)
  {}

  /** An ETag without a dash is the MD5 of the bytes; before a dash stands the MD5 of the digests of the parts, and
      behind it their number. */
  lemma EtagSpells(md5: Md5, bytes: Bytes, parts: seq<Bytes>)
    ensures Unhex(PlainEtag(md5, bytes)) == Some(md5(bytes)) && SplitOnce(PlainEtag(md5, bytes), 45).None?
    ensures SplitOnce(MultipartEtag(md5, parts), 45) == Some((Hex(md5(Digests(md5, parts))), Decimal(|parts|)))
    ensures Unhex(Hex(md5(Digests(md5, parts)))) == Some(md5(Digests(md5, parts)))
  {
    UnhexHex(md5(bytes));
    UnhexHex(md5(Digests(md5, parts)));
    HexHasNoDash(md5(bytes));
    HexHasNoDash(md5(Digests(md5, parts)));
    if SplitOnce(PlainEtag(md5, bytes), 45).Some? { SplitOnceIs(PlainEtag(md5, bytes), 45); }
    SplitOnceAt(Hex(md5(Digests(md5, parts))), Decimal(|parts|), 45);
  }

  ghost predicate IsMultipartEtag(md5: Md5, etag: Bytes, bytes: Bytes) {
    exists parts :: Concat(parts) == bytes && etag == MultipartEtag(md5, parts)
  }

  /** An ETag accounts for the bytes: plainly, or as some split of them into uploaded parts. */
  ghost predicate EtagOk(md5: Md5, etag: Bytes, bytes: Bytes) {
    etag == PlainEtag(md5, bytes) || IsMultipartEtag(md5, etag, bytes)
  }

  // ---- slices ----

  /** The bytes a read of `len` bytes (or of all that is left) from `start` denotes. */
  function Slice(bytes: Bytes, start: nat, len: Option<nat>): Bytes {
    var lo := Min(start, |bytes|);
    var left := |bytes| - lo;
    var n := if len.Some? then Min(len.value, left) else left;
    bytes[lo..lo + n]
  }

  /** All bytes from `start` on, but at most `len`. */
  lemma SliceIs(bytes: Bytes, start: nat, len: Option<nat>, i: nat)
    ensures |Slice(bytes, start, len)| <= |bytes|
    ensures i < |Slice(bytes, start, len)| <==> start + i < |bytes| && (len.Some? ==> i < len.value)
    ensures i < |Slice(bytes, start, len)| ==> Slice(bytes, start, len)[i] == bytes[start + i]
  {}
}
