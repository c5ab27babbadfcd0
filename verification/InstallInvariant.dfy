/** The invariant of the install protocol holds initially and is kept by every call, by arrivals,
    cancellations, crashes and the removal of staging files. */
module InstallInvariant {
  import opened ByteStrings
  import opened Objects
  import opened Install
  import opened InstallSafety
  import opened InstallSteps

  /** Request `i` stands at `op` on a sound disk. */
  ghost predicate At(md5: Md5, d: Disk, i: Id, op: Op) {
    DiskOk(md5, d) && OpInv(md5, d, i, op)
  }

  /** Moving on to `next` and leaving disk `e` is right for request `i` and harmless to the others:
      whatever changes lies in one directory, that of its object. */
  ghost predicate Works(md5: Md5, d: Disk, i: Id, op: Op, next: Op, e: Disk) {
    exists own ::
      own == op.loc && next.loc == own && DiskOk(md5, e) && Keeps(d, e, i, own) && OpInv(md5, e, i, next)
  }

  lemma Stays(md5: Md5, d: Disk, i: Id, op: Op, next: Op)
    requires DiskOk(md5, d) && next.loc == op.loc && OpInv(md5, d, i, next)
    ensures Works(md5, d, i, op, next, d)
  {
    SameFilesKeep(d, d, i);
    SameNamesKeep(d, d, i);
    SamePlacesKeep(d, d, op.loc);
    assert Keeps(d, d, i, op.loc);
  }

  // ---- acquiring, failing, cancelling ----

  lemma LockedInv(md5: Md5, d: Disk, i: Id, op: Op)
    requires Waiting(op) && OpInv(md5, d, i, op)
    ensures OpInv(md5, d, i, Locked(op)) && Locked(op).loc == op.loc
  {}

  // ---- put_object ----

  lemma PutCreateOk(md5: Md5, d: Disk, i: Id, op: Op, n: Name, ino: Ino)
    requires At(md5, d, i, op) && op.PutLocked? && Fresh(d, n) && ino !in d.inodes
    ensures Works(md5, d, i, op, PutStreaming(op.loc, op.attrs, n, ino, []), TmpCreated(d, i, op.loc, n, ino))
  {
    var e := TmpCreated(d, i, op.loc, n, ino);
    TmpCreatedOk(md5, d, i, op.loc, n, ino);
    assert Staging(e, i, op.loc, n, ino) && Writing(e, i, ino, []);
  }

  lemma PutChunkOk(md5: Md5, d: Disk, i: Id, op: Op, c: Bytes)
    requires At(md5, d, i, op) && op.PutStreaming?
    ensures op.ino in d.inodes
    ensures Works(md5, d, i, op, PutStreaming(op.loc, op.attrs, op.tmp, op.ino, op.body + c), Appended(d, op.ino, c))
  {
    AppendedOk(md5, d, i, op.loc, op.ino, op.body, c);
    var e := Appended(d, op.ino, c);
    assert Staging(e, i, op.loc, op.tmp, op.ino);
  }

  lemma PutBreakOk(md5: Md5, d: Disk, i: Id, op: Op)
    requires At(md5, d, i, op) && op.PutStreaming?
    ensures Works(md5, d, i, op, PutBroken(op.loc, op.tmp), d)
  {
    Stays(md5, d, i, op, PutBroken(op.loc, op.tmp));
  }

  lemma PutRemoveOk(md5: Md5, d: Disk, i: Id, op: Op)
    requires At(md5, d, i, op) && op.PutBroken?
    ensures Works(md5, d, i, op, Failed(op.loc), TmpRemoved(d, op.tmp))
  {
    TmpRemovedOk(md5, d, i, op.loc, op.tmp);
  }

  lemma PutSyncOk(md5: Md5, d: Disk, i: Id, op: Op)
    requires At(md5, d, i, op) && op.PutStreaming?
    ensures Works(md5, d, i, op, PutSynced(op.loc, op.attrs, op.tmp, op.ino, op.body), Closed(d, op.ino))
  {
    ClosedOk(md5, d, i, op.loc, op.ino, op.body);
    var e := Closed(d, op.ino);
    assert Staging(e, i, op.loc, op.tmp, op.ino);
  }

  function PutMeta(md5: Md5, op: Op, n: Name): Meta
    requires op.PutSynced?
  {
    Meta(op.loc.key, |op.body|, PlainEtag(md5, op.body), op.attrs, n)
  }

  lemma PutRenameOk(md5: Md5, d: Disk, i: Id, op: Op, n: Name)
    requires At(md5, d, i, op) && op.PutSynced? && Fresh(d, n) && op.tmp in d.tmp
    ensures Works(md5, d, i, op, Ready(op.loc, Upload(op.body, op.attrs), PutMeta(md5, op, n)),
                           TmpInstalled(d, i, op.loc, op.tmp, n))
  {
    var e := TmpInstalled(d, i, op.loc, op.tmp, n);
    assert Adds(d, e, i, op.loc, n, op.ino);
    AddsOk(md5, d, e, i, op.loc, n, op.ino);
    var m := PutMeta(md5, op, n);
    var goal := Upload(op.body, op.attrs);
    assert Frozen(e, op.ino, op.body) && Meets(md5, op.loc, goal, VersionOf(m, op.body));
    assert InPlace(md5, e, i, op.loc, goal, m);
  }

  // ---- copy_object ----

  /** The current version is known: its metadata names a file that holds its bytes. */
  lemma CurrentIsKnown(md5: Md5, d: Disk, loc: Loc)
    requires DiskOk(md5, d) && loc in d.meta
    ensures Known(md5, d, d.meta[loc], Current(d, loc))
    ensures Content(d, loc, d.meta[loc].data).Some?
  {
    assert MetaOk(md5, d, loc);
    assert EntryOk(d, Entry(loc, d.meta[loc].data));
  }

  /** A file found under a published name holds the bytes of that version, for ever. */
  lemma KnownFile(md5: Md5, d: Disk, loc: Loc, m: Meta, v: Version)
    requires DiskOk(md5, d) && Known(md5, d, m, v) && Entry(loc, m.data) in d.data
    ensures Frozen(d, d.data[Entry(loc, m.data)], v.bytes)
    ensures Content(d, loc, m.data) == Some(v.bytes)
  {
    assert EntryOk(d, Entry(loc, m.data));
  }

  lemma CopyReadOk(md5: Md5, d: Disk, i: Id, op: Op)
    requires At(md5, d, i, op) && op.CopyNew? && op.src in d.meta
    ensures Works(md5, d, i, op, CopyKnown(op.loc, op.src, op.replace, d.meta[op.src], Current(d, op.src)), d)
  {
    CurrentIsKnown(md5, d, op.src);
    Stays(md5, d, i, op, CopyKnown(op.loc, op.src, op.replace, d.meta[op.src], Current(d, op.src)));
  }

  lemma CopyMeets(md5: Md5, loc: Loc, seen: Version, replace: Option<Attrs>, hashed: Bytes, n: Name)
    requires Sound(md5, seen) && (replace.Some? ==> hashed == seen.bytes)
    ensures Meets(md5, loc, Duplicate(seen, replace),
                  VersionOf(CopyMeta(md5, loc, seen, replace, hashed, n), seen.bytes))
  {}

  lemma CopyArrivedInv(md5: Md5, e: Disk, i: Id, op: Op, n: Name, ino: Ino)
    requires op.CopyLocked? && Sound(md5, op.seen)
    requires OwnEntry(e, i, Entry(op.loc, n), ino) && Frozen(e, ino, op.seen.bytes)
    ensures OpInv(md5, e, i, CopyArrived(md5, op, n))
  {
    var m := CopyMeta(md5, op.loc, op.seen, None, [], n);
    if op.replace.None? {
      CopyMeets(md5, op.loc, op.seen, None, [], n);
      assert InPlace(md5, e, i, op.loc, Duplicate(op.seen, None), m);
    }
  }

  lemma DataLinkedOk(md5: Md5, d: Disk, i: Id, loc: Loc, n: Name, ino: Ino, b: Bytes)
    requires DiskOk(md5, d) && Fresh(d, n) && Frozen(d, ino, b)
    ensures var e := DataLinked(d, i, loc, n, ino);
      DiskOk(md5, e) && Keeps(d, e, i, loc) && OwnEntry(e, i, Entry(loc, n), ino) && Frozen(e, ino, b)
  {
    var e := DataLinked(d, i, loc, n, ino);
    assert Adds(d, e, i, loc, n, ino);
    AddsOk(md5, d, e, i, loc, n, ino);
  }

  lemma CopyLinkOk(md5: Md5, d: Disk, i: Id, op: Op, n: Name, ino: Ino)
    requires At(md5, d, i, op) && op.CopyLocked? && Fresh(d, n)
    requires Entry(op.src, op.from.data) in d.data && ino == d.data[Entry(op.src, op.from.data)]
    ensures Works(md5, d, i, op, CopyArrived(md5, op, n), DataLinked(d, i, op.loc, n, ino))
  {
    KnownFile(md5, d, op.src, op.from, op.seen);
    DataLinkedOk(md5, d, i, op.loc, n, ino, op.seen.bytes);
    var e := DataLinked(d, i, op.loc, n, ino);
    CopyArrivedInv(md5, e, i, op, n, ino);
  }

  lemma DataCopiedOk(md5: Md5, d: Disk, i: Id, loc: Loc, n: Name, ino: Ino, b: Bytes)
    requires DiskOk(md5, d) && Fresh(d, n) && ino !in d.inodes
    ensures var e := DataCopied(d, i, loc, n, ino, b);
      DiskOk(md5, e) && Keeps(d, e, i, loc) && OwnEntry(e, i, Entry(loc, n), ino) && Frozen(e, ino, b)
  {
    var e := DataCopied(d, i, loc, n, ino, b);
    assert Adds(d, e, i, loc, n, ino);
    AddsOk(md5, d, e, i, loc, n, ino);
  }

  lemma CopyBytesOk(md5: Md5, d: Disk, i: Id, op: Op, n: Name, ino: Ino)
    requires At(md5, d, i, op) && op.CopyLocked? && Fresh(d, n) && ino !in d.inodes
    requires Content(d, op.src, op.from.data).Some?
    ensures Works(md5, d, i, op, CopyArrived(md5, op, n),
                           DataCopied(d, i, op.loc, n, ino, Content(d, op.src, op.from.data).value))
  {
    KnownFile(md5, d, op.src, op.from, op.seen);
    DataCopiedOk(md5, d, i, op.loc, n, ino, op.seen.bytes);
    var e := DataCopied(d, i, op.loc, n, ino, op.seen.bytes);
    CopyArrivedInv(md5, e, i, op, n, ino);
  }

  lemma CopyPartlyOk(md5: Md5, d: Disk, i: Id, op: Op, n: Name, ino: Ino, some: Bytes)
    requires At(md5, d, i, op) && op.CopyLocked? && Fresh(d, n) && ino !in d.inodes
    ensures Works(md5, d, i, op, Failed(op.loc), DataCopied(d, i, op.loc, n, ino, some))
  {
    DataCopiedOk(md5, d, i, op.loc, n, ino, some);
  }

  /** The file being hashed is the complete copy. */
  lemma HashedFile(md5: Md5, d: Disk, i: Id, op: Op)
    requires op.CopyHashing? && ProducingInv(md5, d, i, op)
    ensures Content(d, op.loc, op.name) == Some(op.seen.bytes)
  {
    var ino :| OwnEntry(d, i, Entry(op.loc, op.name), ino) && Frozen(d, ino, op.seen.bytes);
  }

  lemma CopyHashOk(md5: Md5, d: Disk, i: Id, op: Op, hashed: Bytes)
    requires At(md5, d, i, op) && op.CopyHashing? && hashed <= op.seen.bytes
    ensures Works(md5, d, i, op, CopyHashing(op.loc, op.given, op.seen, op.name, hashed), d)
  {
    Stays(md5, d, i, op, CopyHashing(op.loc, op.given, op.seen, op.name, hashed));
  }

  lemma PrefixGrows(all: Bytes, at: nat, n: nat)
    requires at + n <= |all|
    ensures all[..at] + Block(all, at, n) == all[..at + n]
  {}

  lemma CopyHashedOk(md5: Md5, d: Disk, i: Id, op: Op)
    requires At(md5, d, i, op) && op.CopyHashing? && op.hashed == op.seen.bytes
    ensures Works(md5, d, i, op, Ready(op.loc, Duplicate(op.seen, Some(op.given)),
                                       CopyMeta(md5, op.loc, op.seen, Some(op.given), op.hashed, op.name)), d)
  {
    var goal := Duplicate(op.seen, Some(op.given));
    var m := CopyMeta(md5, op.loc, op.seen, Some(op.given), op.hashed, op.name);
    CopyMeets(md5, op.loc, op.seen, Some(op.given), op.hashed, op.name);
    assert InPlace(md5, d, i, op.loc, goal, m);
    Stays(md5, d, i, op, Ready(op.loc, goal, m));
  }

  // ---- complete_multipart ----

  lemma JoinCreateInv(md5: Md5, d: Disk, i: Id, op: Op, n: Name, ino: Ino)
    requires DiskOk(md5, d) && op.JoinLocked? && Fresh(d, n) && ino !in d.inodes
    ensures var e := DataCreated(d, i, op.loc, n, ino);
      && DiskOk(md5, e) && Keeps(d, e, i, op.loc)
      && ProducingInv(md5, e, i, JoinWriting(op.loc, op.attrs, op.parts, n, ino, 0))
  {
    var e := DataCreated(d, i, op.loc, n, ino);
    assert Adds(d, e, i, op.loc, n, ino);
    AddsOk(md5, d, e, i, op.loc, n, ino);
    assert Concat(op.parts)[..0] == [];
    assert Writing(e, i, ino, []);
  }

  lemma JoinCreateOk(md5: Md5, d: Disk, i: Id, op: Op, n: Name, ino: Ino)
    requires At(md5, d, i, op) && op.JoinLocked? && Fresh(d, n) && ino !in d.inodes
    ensures Works(md5, d, i, op, JoinWriting(op.loc, op.attrs, op.parts, n, ino, 0), DataCreated(d, i, op.loc, n, ino))
  {
    JoinCreateInv(md5, d, i, op, n, ino);
  }

  lemma JoinAppendInv(md5: Md5, d: Disk, i: Id, op: Op, n: nat, block: Bytes)
    requires DiskOk(md5, d) && op.JoinWriting? && ProducingInv(md5, d, i, op) && op.wrote + n <= |Concat(op.parts)|
    requires Concat(op.parts)[..op.wrote] + block == Concat(op.parts)[..op.wrote + n]
    ensures op.ino in d.inodes
    ensures var e := Appended(d, op.ino, block);
      && DiskOk(md5, e) && Keeps(d, e, i, op.loc)
      && ProducingInv(md5, e, i, JoinWriting(op.loc, op.attrs, op.parts, op.name, op.ino, op.wrote + n))
  {
    AppendedOk(md5, d, i, op.loc, op.ino, Concat(op.parts)[..op.wrote], block);
  }

  lemma JoinAppendOk(md5: Md5, d: Disk, i: Id, op: Op, n: nat, block: Bytes)
    requires At(md5, d, i, op) && op.JoinWriting? && op.wrote + n <= |Concat(op.parts)|
    requires Concat(op.parts)[..op.wrote] + block == Concat(op.parts)[..op.wrote + n]
    ensures op.ino in d.inodes
    ensures Works(md5, d, i, op, JoinWriting(op.loc, op.attrs, op.parts, op.name, op.ino, op.wrote + n),
                           Appended(d, op.ino, block))
  {
    JoinAppendInv(md5, d, i, op, n, block);
  }

  function JoinMeta(md5: Md5, op: Op): Meta
    requires op.JoinWriting?
  {
    Meta(op.loc.key, |Concat(op.parts)|, MultipartEtag(md5, op.parts), op.attrs, op.name)
  }

  lemma JoinMeets(md5: Md5, op: Op)
    requires op.JoinWriting?
    ensures Meets(md5, op.loc, Assembly(op.parts, op.attrs), VersionOf(JoinMeta(md5, op), Concat(op.parts)))
  {
    assert IsMultipartEtag(md5, MultipartEtag(md5, op.parts), Concat(op.parts));
  }

  lemma JoinSyncOk(md5: Md5, d: Disk, i: Id, op: Op)
    requires At(md5, d, i, op) && op.JoinWriting? && op.wrote == |Concat(op.parts)|
    ensures Works(md5, d, i, op, Ready(op.loc, Assembly(op.parts, op.attrs), JoinMeta(md5, op)), Closed(d, op.ino))
  {
    var all := Concat(op.parts);
    assert all[..op.wrote] == all;
    ClosedOk(md5, d, i, op.loc, op.ino, all);
    JoinMeets(md5, op);
    var e := Closed(d, op.ino);
    assert OwnEntry(e, i, Entry(op.loc, op.name), op.ino);
    assert InPlace(md5, e, i, op.loc, Assembly(op.parts, op.attrs), JoinMeta(md5, op));
  }

  // ---- the metadata swap and garbage collection ----

  lemma InPlaceStaged(md5: Md5, d: Disk, e: Disk, i: Id, loc: Loc, goal: Goal, m: Meta)
    requires InPlace(md5, d, i, loc, goal, m)
    requires forall n :: n in d.drawn ==> n in e.drawn && e.drawn[n] == d.drawn[n]
    requires e.sealed == d.sealed && e.data == d.data && e.inodes == d.inodes && e.writer == d.writer
    ensures InPlace(md5, e, i, loc, goal, m)
  {
    var ino, b :| OwnEntry(d, i, Entry(loc, m.data), ino) && Frozen(d, ino, b)
                  && Meets(md5, loc, goal, VersionOf(m, b));
    assert OwnEntry(e, i, Entry(loc, m.data), ino) && Frozen(e, ino, b);
  }

  lemma StagedInv(md5: Md5, d: Disk, i: Id, op: Op, n: Name, e: Disk)
    requires op.Ready? && SwappingInv(md5, d, i, op) && Fresh(d, n) && e == MetaWritten(d, i, op.loc, n, op.meta)
    ensures OpInv(md5, e, i, Staged(op.loc, op.goal, op.meta, n))
  {
    InPlaceStaged(md5, d, e, i, op.loc, op.goal, op.meta);
  }

  lemma StageMetaOk(md5: Md5, d: Disk, i: Id, op: Op, n: Name)
    requires At(md5, d, i, op) && op.Ready? && Fresh(d, n)
    ensures Works(md5, d, i, op, Staged(op.loc, op.goal, op.meta, n), MetaWritten(d, i, op.loc, n, op.meta))
  {
    MetaWrittenOk(md5, d, i, op.loc, n, op.meta);
    StagedInv(md5, d, i, op, n, MetaWritten(d, i, op.loc, n, op.meta));
  }

  lemma SwapFailsOk(md5: Md5, d: Disk, i: Id, op: Op)
    requires At(md5, d, i, op) && (op.Ready? || op.Staged?)
    ensures Works(md5, d, i, op, Undoing(op.loc, op.meta.data), d)
  {
    assert InPlace(md5, d, i, op.loc, op.goal, op.meta);
    Stays(md5, d, i, op, Undoing(op.loc, op.meta.data));
  }

  lemma PublishMetaOk(md5: Md5, d: Disk, i: Id, op: Op)
    requires At(md5, d, i, op) && op.Staged?
    ensures IsMetaTmp(d, Entry(op.loc, op.metaTmp), op.meta)
    ensures Works(md5, d, i, op, Published(op.loc, op.goal, op.meta), MetaRenamed(d, Entry(op.loc, op.metaTmp)))
  {
    var t := Entry(op.loc, op.metaTmp);
    MetaRenamedOk(md5, d, i, op.goal, t, op.meta);
  }

  lemma Unpublished(md5: Md5, d: Disk, loc: Loc, n: Name)
    requires DiskOk(md5, d) && n !in d.sealed && loc in d.meta
    ensures d.meta[loc].data != n
  {
    assert MetaOk(md5, d, loc);
  }

  /** A request ends by removing a file that no metadata names. */
  lemma LastRemovalOk(md5: Md5, d: Disk, i: Id, op: Op, last: Op, n: Name)
    requires DiskOk(md5, d) && (op.loc in d.meta ==> d.meta[op.loc].data != n)
    requires last == Failed(op.loc) || last == DelDone(op.loc, true)
    ensures Works(md5, d, i, op, last, DataRemoved(d, Entry(op.loc, n)))
  {
    DataRemovedOk(md5, d, i, Entry(op.loc, n));
  }

  lemma UndoDataOk(md5: Md5, d: Disk, i: Id, op: Op)
    requires At(md5, d, i, op) && op.Undoing?
    ensures Works(md5, d, i, op, Failed(op.loc), DataRemoved(d, Entry(op.loc, op.name)))
  {
    if op.loc in d.meta { Unpublished(md5, d, op.loc, op.name); }
    LastRemovalOk(md5, d, i, op, Failed(op.loc), op.name);
  }

  lemma GcListOk(md5: Md5, d: Disk, i: Id, op: Op)
    requires At(md5, d, i, op) && op.Published?
    ensures Works(md5, d, i, op, Sweeping(op.loc, op.goal, op.meta, Names(d, op.loc)), d)
  {
    assert Covers(d, op.loc, op.meta.data, Names(d, op.loc));
    Stays(md5, d, i, op, Sweeping(op.loc, op.goal, op.meta, Names(d, op.loc)));
  }

  lemma UnlinkCovers(d: Disk, loc: Loc, keep: Name, todo: set<Name>, n: Name)
    requires Covers(d, loc, keep, todo)
    ensures Covers(DataRemoved(d, Entry(loc, n)), loc, keep, todo - {n})
  {}

  lemma GcUnlinkInv(md5: Md5, d: Disk, i: Id, op: Op, n: Name)
    requires DiskOk(md5, d) && op.Sweeping? && SwappingInv(md5, d, i, op) && n != op.meta.data
    ensures var e := DataRemoved(d, Entry(op.loc, n));
      && DiskOk(md5, e) && Keeps(d, e, i, op.loc)
      && SwappingInv(md5, e, i, Sweeping(op.loc, op.goal, op.meta, op.todo - {n}))
  {
    DataRemovedOk(md5, d, i, Entry(op.loc, n));
    UnlinkCovers(d, op.loc, op.meta.data, op.todo, n);
  }

  lemma GcUnlinkOk(md5: Md5, d: Disk, i: Id, op: Op, n: Name)
    requires At(md5, d, i, op) && op.Sweeping? && n != op.meta.data
    ensures Works(md5, d, i, op, Sweeping(op.loc, op.goal, op.meta, op.todo - {n}), DataRemoved(d, Entry(op.loc, n)))
  {
    GcUnlinkInv(md5, d, i, op, n);
  }

  lemma GcEndOk(md5: Md5, d: Disk, i: Id, op: Op, swept: bool)
    requires At(md5, d, i, op) && (op.Published? || op.Sweeping?)
    ensures Works(md5, d, i, op, InstallDone(op.loc, op.goal, op.meta, swept), d)
  {
    Stays(md5, d, i, op, InstallDone(op.loc, op.goal, op.meta, swept));
  }

  // ---- delete_object ----

  lemma DelQuietOk(md5: Md5, d: Disk, i: Id, op: Op, next: Op)
    requires At(md5, d, i, op) && Deleting(op) && next.loc == op.loc
    requires (Deleting(next) && DeletingInv(d, next)) || next.DelDone?
    ensures Works(md5, d, i, op, next, d)
  {
    Stays(md5, d, i, op, next);
  }

  lemma GoneInv(md5: Md5, e: Disk, i: Id, next: Op)
    requires next.loc !in e.meta && (next.DelGone? || next.DelDone?)
    ensures OpInv(md5, e, i, next)
  {}

  lemma DelMetaOk(md5: Md5, d: Disk, i: Id, op: Op, next: Op)
    requires DiskOk(md5, d) && next.loc == op.loc && (next.DelGone? || next.DelDone?)
    ensures Works(md5, d, i, op, next, MetaRemoved(d, op.loc))
  {
    MetaRemovedOk(md5, d, i, op.loc);
    GoneInv(md5, MetaRemoved(d, op.loc), i, next);
  }

  lemma DelDataOk(md5: Md5, d: Disk, i: Id, op: Op)
    requires At(md5, d, i, op) && op.DelGone?
    ensures Works(md5, d, i, op, DelDone(op.loc, true), DataRemoved(d, Entry(op.loc, op.name)))
  {
    LastRemovalOk(md5, d, i, op, DelDone(op.loc, true), op.name);
  }

  // ---- get_object_range ----

  lemma GetMetaOk(md5: Md5, d: Disk, i: Id, op: Op)
    requires At(md5, d, i, op) && op.GetNew? && op.loc in d.meta
    ensures Works(md5, d, i, op, GetKnown(op.loc, op.start, op.len, d.meta[op.loc], Current(d, op.loc)), d)
  {
    CurrentIsKnown(md5, d, op.loc);
    Stays(md5, d, i, op, GetKnown(op.loc, op.start, op.len, d.meta[op.loc], Current(d, op.loc)));
  }

  lemma GetOpenOk(md5: Md5, d: Disk, i: Id, op: Op)
    requires At(md5, d, i, op) && op.GetKnown? && Entry(op.loc, op.from.data) in d.data
    ensures Works(md5, d, i, op, GetStreaming(op.loc, op.start, op.len, op.seen,
                                              d.data[Entry(op.loc, op.from.data)], []), d)
  {
    KnownFile(md5, d, op.loc, op.from, op.seen);
    Stays(md5, d, i, op, GetStreaming(op.loc, op.start, op.len, op.seen, d.data[Entry(op.loc, op.from.data)], []));
  }

  lemma WantedIsSlice(v: Version, start: nat, len: Option<nat>)
    requires |v.bytes| == v.size
    ensures |Slice(v.bytes, start, len)| == Wanted(v.size, start, len)
    ensures start <= v.size ==> Slice(v.bytes, start, len) == v.bytes[start..start + Wanted(v.size, start, len)]
    ensures start > v.size ==> Slice(v.bytes, start, len) == []
  {}

  lemma BlockDelivered(v: Version, start: nat, len: Option<nat>, out: Bytes, n: nat)
    requires |v.bytes| == v.size && Delivered(v, start, len, out)
    requires 0 < n && |out| + n <= Wanted(v.size, start, len)
    ensures start + |out| + n <= |v.bytes|
    ensures Delivered(v, start, len, out + Block(v.bytes, start + |out|, n))
  {
    WantedIsSlice(v, start, len);
    var w := Wanted(v.size, start, len);
    SliceOfSlice(v.bytes, start, start + w, |out|, |out| + n);
    var all := v.bytes[start..start + w];
    assert out + all[|out|..|out| + n] == all[..|out| + n];
  }

  lemma StreamedFile(md5: Md5, d: Disk, i: Id, op: Op)
    requires At(md5, d, i, op) && op.GetStreaming?
    ensures op.ino in d.inodes && d.inodes[op.ino] == op.seen.bytes
    ensures |op.seen.bytes| == op.seen.size && Delivered(op.seen, op.start, op.len, op.out)
  {
  }

  lemma GetReadOk(md5: Md5, d: Disk, i: Id, op: Op, out: Bytes)
    requires At(md5, d, i, op) && op.GetStreaming? && Delivered(op.seen, op.start, op.len, out)
    ensures Works(md5, d, i, op, GetStreaming(op.loc, op.start, op.len, op.seen, op.ino, out), d)
  {
    Stays(md5, d, i, op, GetStreaming(op.loc, op.start, op.len, op.seen, op.ino, out));
  }

  lemma GetEndOk(md5: Md5, d: Disk, i: Id, op: Op)
    requires At(md5, d, i, op) && op.GetStreaming?
    requires |op.out| == Wanted(op.seen.size, op.start, op.len) || op.start + |op.out| >= op.seen.size
    ensures Works(md5, d, i, op, GetDone(op.loc, op.start, op.len, op.seen, op.out), d)
  {
    WantedIsSlice(op.seen, op.start, op.len);
    Stays(md5, d, i, op, GetDone(op.loc, op.start, op.len, op.seen, op.out));
  }

  // ---- every act ----

  lemma PutCallOk(md5: Md5, d: Disk, locks: map<Loc, Id>, i: Id, op: Op, c: Call)
    requires At(md5, d, i, op) && CanTake(d, locks, op, c) && IsPutCall(c)
    ensures Works(md5, d, i, op, PutNext(md5, d, locks, op, c), PutDisk(d, locks, i, op, c))
  {
    if c.PutCreate? { PutCreateOk(md5, d, i, op, c.name, c.ino); }
    else if c.PutChunk? { PutChunkOk(md5, d, i, op, c.chunk); }
    else if c.PutBreak? { PutBreakOk(md5, d, i, op); }
    else if c.PutRemove? { PutRemoveOk(md5, d, i, op); }
    else if c.PutSync? { PutSyncOk(md5, d, i, op); }
    else { PutRenameOk(md5, d, i, op, c.name); }
  }

  lemma HashedSoFar(md5: Md5, d: Disk, i: Id, op: Op)
    requires At(md5, d, i, op) && op.CopyHashing?
    ensures Content(d, op.loc, op.name) == Some(op.seen.bytes) && op.hashed <= op.seen.bytes
  {
    HashedFile(md5, d, i, op);
  }

  lemma CopyHashCallOk(md5: Md5, d: Disk, locks: map<Loc, Id>, i: Id, op: Op, c: Call)
    requires At(md5, d, i, op) && CanTake(d, locks, op, c) && (c.CopyHash? || c.CopyHashed?)
    ensures Works(md5, d, i, op, CopyNext(md5, d, locks, op, c), d)
  {
    HashedSoFar(md5, d, i, op);
    if c.CopyHash? {
      PrefixGrows(op.seen.bytes, |op.hashed|, c.n);
      CopyHashOk(md5, d, i, op, op.hashed + Block(op.seen.bytes, |op.hashed|, c.n));
    } else {
      CopyHashedOk(md5, d, i, op);
    }
  }

  lemma CopyCallOk(md5: Md5, d: Disk, locks: map<Loc, Id>, i: Id, op: Op, c: Call)
    requires At(md5, d, i, op) && CanTake(d, locks, op, c) && IsCopyCall(c)
    ensures Works(md5, d, i, op, CopyNext(md5, d, locks, op, c), CopyDisk(d, locks, i, op, c))
  {
    if c.CopyRead? { CopyReadOk(md5, d, i, op); }
    else if c.CopyLink? { CopyLinkOk(md5, d, i, op, c.name, d.data[Entry(op.src, op.from.data)]); }
    else if c.CopyBytes? { CopyBytesOk(md5, d, i, op, c.name, c.ino); }
    else if c.CopyPartly? { CopyPartlyOk(md5, d, i, op, c.name, c.ino, c.some); }
    else { CopyHashCallOk(md5, d, locks, i, op, c); }
  }

  lemma JoinAppendCallOk(md5: Md5, d: Disk, i: Id, op: Op, n: nat)
    requires At(md5, d, i, op) && op.JoinWriting? && op.wrote + n <= |Concat(op.parts)|
    ensures op.ino in d.inodes
    ensures Works(md5, d, i, op, JoinWriting(op.loc, op.attrs, op.parts, op.name, op.ino, op.wrote + n),
                           Appended(d, op.ino, Block(Concat(op.parts), op.wrote, n)))
  {
    PrefixGrows(Concat(op.parts), op.wrote, n);
    JoinAppendOk(md5, d, i, op, n, Block(Concat(op.parts), op.wrote, n));
  }

  lemma JoinCreateShape(md5: Md5, d: Disk, locks: map<Loc, Id>, i: Id, op: Op, c: Call)
    requires CanTake(d, locks, op, c) && c.JoinCreate?
    ensures op.JoinLocked? && Fresh(d, c.name) && c.ino !in d.inodes
    ensures JoinNext(md5, d, locks, op, c) == JoinWriting(op.loc, op.attrs, op.parts, c.name, c.ino, 0)
    ensures JoinDisk(d, locks, i, op, c) == DataCreated(d, i, op.loc, c.name, c.ino)
  {}

  lemma JoinAppendShape(md5: Md5, d: Disk, locks: map<Loc, Id>, i: Id, op: Op, c: Call)
    requires CanTake(d, locks, op, c) && c.JoinAppend?
    ensures op.JoinWriting? && op.wrote + c.n <= |Concat(op.parts)| && op.ino in d.inodes
    ensures JoinNext(md5, d, locks, op, c) == JoinWriting(op.loc, op.attrs, op.parts, op.name, op.ino, op.wrote + c.n)
    ensures JoinDisk(d, locks, i, op, c) == Appended(d, op.ino, Block(Concat(op.parts), op.wrote, c.n))
  {}

  lemma JoinSyncShape(md5: Md5, d: Disk, locks: map<Loc, Id>, i: Id, op: Op, c: Call)
    requires CanTake(d, locks, op, c) && c.JoinSync?
    ensures op.JoinWriting? && op.wrote == |Concat(op.parts)|
    ensures JoinNext(md5, d, locks, op, c) == Ready(op.loc, Assembly(op.parts, op.attrs), JoinMeta(md5, op))
    ensures JoinDisk(d, locks, i, op, c) == Closed(d, op.ino)
  {}

  lemma JoinCreateWorks(md5: Md5, d: Disk, locks: map<Loc, Id>, i: Id, op: Op, c: Call)
    requires At(md5, d, i, op) && CanTake(d, locks, op, c) && c.JoinCreate?
    ensures Works(md5, d, i, op, JoinNext(md5, d, locks, op, c), JoinDisk(d, locks, i, op, c))
  {
    JoinCreateShape(md5, d, locks, i, op, c);
    JoinCreateOk(md5, d, i, op, c.name, c.ino);
  }

  lemma JoinAppendWorks(md5: Md5, d: Disk, locks: map<Loc, Id>, i: Id, op: Op, c: Call)
    requires At(md5, d, i, op) && CanTake(d, locks, op, c) && c.JoinAppend?
    ensures Works(md5, d, i, op, JoinNext(md5, d, locks, op, c), JoinDisk(d, locks, i, op, c))
  {
    JoinAppendShape(md5, d, locks, i, op, c);
    JoinAppendCallOk(md5, d, i, op, c.n);
  }

  lemma JoinSyncWorks(md5: Md5, d: Disk, locks: map<Loc, Id>, i: Id, op: Op, c: Call)
    requires At(md5, d, i, op) && CanTake(d, locks, op, c) && c.JoinSync?
    ensures Works(md5, d, i, op, JoinNext(md5, d, locks, op, c), JoinDisk(d, locks, i, op, c))
  {
    JoinSyncShape(md5, d, locks, i, op, c);
    JoinSyncOk(md5, d, i, op);
  }

  lemma JoinCallOk(md5: Md5, d: Disk, locks: map<Loc, Id>, i: Id, op: Op, c: Call)
    requires At(md5, d, i, op) && CanTake(d, locks, op, c) && IsJoinCall(c)
    ensures Works(md5, d, i, op, JoinNext(md5, d, locks, op, c), JoinDisk(d, locks, i, op, c))
  {
    if c.JoinCreate? { JoinCreateWorks(md5, d, locks, i, op, c); }
    else if c.JoinAppend? { JoinAppendWorks(md5, d, locks, i, op, c); }
    else { JoinSyncWorks(md5, d, locks, i, op, c); }
  }

  lemma SwapCallOk(md5: Md5, d: Disk, locks: map<Loc, Id>, i: Id, op: Op, c: Call)
    requires At(md5, d, i, op) && CanTake(d, locks, op, c) && IsSwapCall(c)
    ensures Works(md5, d, i, op, SwapNext(d, locks, op, c), SwapDisk(d, locks, i, op, c))
  {
    if c.StageMeta? { StageMetaOk(md5, d, i, op, c.name); }
    else if c.StageFails? || c.PublishFails? { SwapFailsOk(md5, d, i, op); }
    else if c.PublishMeta? { PublishMetaOk(md5, d, i, op); }
    else if c.UndoData? { UndoDataOk(md5, d, i, op); }
    else if c.GcList? { GcListOk(md5, d, i, op); }
    else if c.GcUnlink? { GcUnlinkOk(md5, d, i, op, c.name); }
    else { GcEndOk(md5, d, i, op, c.GcEnd?); }
  }

  lemma DelCallOk(md5: Md5, d: Disk, locks: map<Loc, Id>, i: Id, op: Op, c: Call)
    requires At(md5, d, i, op) && CanTake(d, locks, op, c) && IsDelCall(c)
    ensures Works(md5, d, i, op, DelNext(d, locks, op, c), DelDisk(d, locks, op, c))
  {
    var next := DelNext(d, locks, op, c);
    if c.DelProbe? || c.DelRead? { DelQuietOk(md5, d, i, op, next); }
    else if c.DelMeta? { DelMetaOk(md5, d, i, op, next); }
    else { DelDataOk(md5, d, i, op); }
  }

  lemma GetReadCallOk(md5: Md5, d: Disk, i: Id, op: Op, n: nat)
    requires At(md5, d, i, op) && op.GetStreaming? && 0 < n && |op.out| + n <= Wanted(op.seen.size, op.start, op.len)
    ensures op.ino in d.inodes && op.start + |op.out| + n <= |d.inodes[op.ino]|
    ensures Works(md5, d, i, op, GetStreaming(op.loc, op.start, op.len, op.seen, op.ino,
                                              op.out + Block(d.inodes[op.ino], op.start + |op.out|, n)), d)
  {
    StreamedFile(md5, d, i, op);
    BlockDelivered(op.seen, op.start, op.len, op.out, n);
    GetReadOk(md5, d, i, op, op.out + Block(op.seen.bytes, op.start + |op.out|, n));
  }

  lemma GetEndCallOk(md5: Md5, d: Disk, locks: map<Loc, Id>, i: Id, op: Op, c: Call)
    requires At(md5, d, i, op) && CanTake(d, locks, op, c) && c.GetEnd?
    ensures Works(md5, d, i, op, GetNext(d, locks, op, c), d)
  {
    StreamedFile(md5, d, i, op);
    GetEndOk(md5, d, i, op);
  }

  lemma GetMetaCallOk(md5: Md5, d: Disk, locks: map<Loc, Id>, i: Id, op: Op, c: Call)
    requires At(md5, d, i, op) && CanTake(d, locks, op, c) && (c.GetMeta? || c.GetOpen?)
    ensures Works(md5, d, i, op, GetNext(d, locks, op, c), d)
  {
    if c.GetMeta? { GetMetaOk(md5, d, i, op); } else { GetOpenOk(md5, d, i, op); }
  }

  lemma GetCallOk(md5: Md5, d: Disk, locks: map<Loc, Id>, i: Id, op: Op, c: Call)
    requires At(md5, d, i, op) && CanTake(d, locks, op, c) && IsGetCall(c)
    ensures Works(md5, d, i, op, GetNext(d, locks, op, c), d)
  {
    if c.GetMeta? || c.GetOpen? { GetMetaCallOk(md5, d, locks, i, op, c); }
    else if c.GetRead? { GetReadCallOk(md5, d, i, op, c.n); }
    else { GetEndCallOk(md5, d, locks, i, op, c); }
  }

  predicate IsLifeCall(c: Call) {
    c.Acquire? || c.Fail? || c.Cancel?
  }

  lemma ProtocolCallOk(md5: Md5, d: Disk, locks: map<Loc, Id>, i: Id, op: Op, c: Call)
    requires At(md5, d, i, op) && CanTake(d, locks, op, c) && !IsLifeCall(c)
    ensures Works(md5, d, i, op, Next(md5, d, locks, op, c), NextDisk(d, locks, i, op, c))
  {
    if IsPutCall(c) { PutCallOk(md5, d, locks, i, op, c); }
    else if IsCopyCall(c) { CopyCallOk(md5, d, locks, i, op, c); }
    else if IsJoinCall(c) { JoinCallOk(md5, d, locks, i, op, c); }
    else if IsSwapCall(c) { SwapCallOk(md5, d, locks, i, op, c); }
    else if IsDelCall(c) { DelCallOk(md5, d, locks, i, op, c); }
    else { GetCallOk(md5, d, locks, i, op, c); }
  }

  lemma LifeCallOk(md5: Md5, d: Disk, locks: map<Loc, Id>, i: Id, op: Op, c: Call)
    requires At(md5, d, i, op) && CanTake(d, locks, op, c) && IsLifeCall(c)
    ensures Works(md5, d, i, op, Next(md5, d, locks, op, c), d)
  {
    if c.Acquire? { LockedInv(md5, d, i, op); }
    Stays(md5, d, i, op, Next(md5, d, locks, op, c));
  }

  lemma LifeCallIsNoOther(c: Call)
    requires IsLifeCall(c)
    ensures !IsPutCall(c) && !IsCopyCall(c) && !IsJoinCall(c) && !IsSwapCall(c) && !IsDelCall(c)
  {}

  lemma LifeCallKeepsDisk(d: Disk, locks: map<Loc, Id>, i: Id, op: Op, c: Call)
    requires CanTake(d, locks, op, c) && IsLifeCall(c)
    ensures NextDisk(d, locks, i, op, c) == d
  {
    LifeCallIsNoOther(c);
  }

  /** Every call works. */
  lemma CallOk(md5: Md5, d: Disk, locks: map<Loc, Id>, i: Id, op: Op, c: Call, next: Op, e: Disk)
    requires At(md5, d, i, op) && CanTake(d, locks, op, c)
    requires next == Next(md5, d, locks, op, c) && e == NextDisk(d, locks, i, op, c)
    ensures Works(md5, d, i, op, next, e)
  {
    if IsLifeCall(c) {
      LifeCallOk(md5, d, locks, i, op, c);
      LifeCallKeepsDisk(d, locks, i, op, c);
    } else {
      ProtocolCallOk(md5, d, locks, i, op, c);
    }
  }

  lemma OthersKeepDisk(d: Disk, locks: map<Loc, Id>, i: Id, op: Op, c: Call)
    requires CanTake(d, locks, op, c) && !Holds(op)
    ensures NextDisk(d, locks, i, op, c) == d
  {}

  lemma OthersWait(md5: Md5, d: Disk, locks: map<Loc, Id>, op: Op, c: Call)
    requires CanTake(d, locks, op, c) && !Holds(op)
    ensures Holds(Next(md5, d, locks, op, c)) ==> op.loc !in locks
  {}

  /** Only lock holders change the disk, and nobody comes to hold a lock that is taken. */
  lemma LockDiscipline(md5: Md5, d: Disk, locks: map<Loc, Id>, i: Id, op: Op, c: Call)
    requires CanTake(d, locks, op, c)
    ensures Holds(op) || NextDisk(d, locks, i, op, c) == d
    ensures Holds(Next(md5, d, locks, op, c)) ==> Holds(op) || op.loc !in locks
  {
    if !Holds(op) {
      OthersKeepDisk(d, locks, i, op, c);
      OthersWait(md5, d, locks, op, c);
    }
  }

  lemma WorksIsEnough(md5: Md5, s: Sys, i: Id, next: Op, e: Disk)
    requires Inv(md5, s) && i in s.ops && Works(md5, s.disk, i, s.ops[i], next, e)
    requires Holds(s.ops[i]) || e == s.disk
    requires Holds(next) ==> Holds(s.ops[i]) || s.ops[i].loc !in s.locks
    ensures Inv(md5, Moved(s, i, next, e))
  {
    if Holds(s.ops[i]) {
      WorkStep(md5, s, i, next, e);
    } else {
      QuietStep(md5, s, i, next);
    }
  }

  lemma TakeOk(md5: Md5, s: Sys, i: Id, c: Call, next: Op, e: Disk)
    requires Inv(md5, s) && i in s.ops && CanTake(s.disk, s.locks, s.ops[i], c)
    requires next == Next(md5, s.disk, s.locks, s.ops[i], c)
    requires e == NextDisk(s.disk, s.locks, i, s.ops[i], c)
    ensures Inv(md5, Moved(s, i, next, e))
  {
    CallOk(md5, s.disk, s.locks, i, s.ops[i], c, next, e);
    LockDiscipline(md5, s.disk, s.locks, i, s.ops[i], c);
    WorksIsEnough(md5, s, i, next, e);
  }

  lemma ArrivalLocks(s: Sys, i: Id, op: Op)
    requires LocksOk(s) && i !in s.ops && Initial(op)
    ensures LocksOk(s.(ops := s.ops[i := op]))
  {
    var t := s.(ops := s.ops[i := op]);
    forall loc | loc in t.locks
      ensures Guards(t, t.locks[loc], loc)
    {
      assert Guards(s, s.locks[loc], loc);
    }
  }

  lemma InitialInv(md5: Md5, d: Disk, i: Id, op: Op)
    requires Initial(op)
    ensures OpInv(md5, d, i, op)
  {}

  lemma ArriveOk(md5: Md5, s: Sys, i: Id, op: Op)
    requires Inv(md5, s) && i !in s.ops && Initial(op)
    ensures Inv(md5, s.(ops := s.ops[i := op]))
  {
    var t := s.(ops := s.ops[i := op]);
    ArrivalLocks(s, i, op);
    forall j | j in t.ops
      ensures OpInv(md5, t.disk, j, t.ops[j])
    {
      if j == i { InitialInv(md5, s.disk, i, op); } else { assert OpInv(md5, s.disk, j, s.ops[j]); }
    }
  }

  /** A crash at any moment leaves a disk from which everything can go on. */
  lemma CrashOk(md5: Md5, s: Sys)
    requires Inv(md5, s)
    ensures Inv(md5, Do(md5, s, Crash))
  {
    var t := Do(md5, s, Crash);
    forall i | i in t.ops
      ensures OpInv(md5, t.disk, i, t.ops[i]) && !Holds(t.ops[i])
    {
      assert OpInv(md5, s.disk, i, s.ops[i]);
    }
  }

  lemma CleanTmpOk(md5: Md5, s: Sys, n: Name)
    requires Inv(md5, s)
    ensures Inv(md5, s.(disk := TmpRemoved(s.disk, n)))
  {
    var e := TmpRemoved(s.disk, n);
    forall j | j in s.ops
      ensures OpInv(md5, e, j, s.ops[j])
    {
      var elsewhere := Loc(s.ops[j].loc.bucket + [0], []);
      assert |elsewhere.bucket| == |s.ops[j].loc.bucket| + 1;
      TmpRemovedOk(md5, s.disk, j + 1, elsewhere, n);
      Undisturbed(md5, s.disk, e, j + 1, elsewhere, j, s.ops[j]);
    }
    assert DiskOk(md5, e) by { TmpRemovedOk(md5, s.disk, 0, Loc([], []), n); }
  }

  lemma InitInv(md5: Md5)
    ensures Inv(md5, EMPTY)
  {}

  /** Every act, by anyone, keeps the invariant. */
  lemma DoOk(md5: Md5, s: Sys, a: Act)
    requires Inv(md5, s) && Enabled(s, a)
    ensures Inv(md5, Do(md5, s, a))
  {
    match a
    case Arrive(i, op) => ArriveOk(md5, s, i, op);
    case Take(i, c) =>
      TakeOk(md5, s, i, c, Next(md5, s.disk, s.locks, s.ops[i], c), NextDisk(s.disk, s.locks, i, s.ops[i], c));
    case Crash => CrashOk(md5, s);
    case CleanTmp(n) => CleanTmpOk(md5, s, n);
  }
}
