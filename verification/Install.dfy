/** The object install protocol as a transition system. The state is the disk below the data
    directory, the table of per-object locks, and any number of requests, each with its own program
    counter. A step is one file system call of one request, the arrival or the cancellation of a
    request, a crash of the whole process, or the housekeeping of staging files. */
module Install {
  import opened ByteStrings
  import opened Objects

  type Name = nat   // a drawn UUID; names every file that is not a `meta.json`
  type Ino = nat    // a file's content, shared by hard links and by open handles
  type Id = nat     // a request

  /** A `<uuid>.data` (or `meta.tmp-<uuid>`) file in the directory of an object. */
  datatype Entry = Entry(loc: Loc, name: Name)

  /** The contents of a `meta.json`. */
  datatype Meta = Meta(key: Bytes, size: nat, etag: Bytes, attrs: Attrs, data: Name)

  /** Who drew a UUID, and for which object. */
  datatype Draw = Draw(who: Id, loc: Loc)

  /** The files. The last three components are history: the UUIDs drawn so far, the bytes of every
      version ever published by the name of its data file, and who is still writing which file. */
  datatype Disk = Disk(
    inodes: map<Ino, Bytes>,
    tmp: map<Name, Ino>,
    data: map<Entry, Ino>,
    metaTmp: map<Entry, Meta>,
    meta: map<Loc, Meta>,
    drawn: map<Name, Draw>,
    sealed: map<Name, Bytes>,
    writer: map<Ino, Id>)

  /** What an install is meant to store. */
  datatype Goal =
    | Upload(body: Bytes, attrs: Attrs)
    | Duplicate(source: Version, replace: Option<Attrs>)
    | Assembly(parts: seq<Bytes>, attrs: Attrs)

  /** A request and where it stands. */
  datatype Op =
    // put_object
    | PutNew(loc: Loc, attrs: Attrs)
    | PutLocked(loc: Loc, attrs: Attrs)
    | PutStreaming(loc: Loc, attrs: Attrs, tmp: Name, ino: Ino, body: Bytes)
    | PutBroken(loc: Loc, tmp: Name)
    | PutSynced(loc: Loc, attrs: Attrs, tmp: Name, ino: Ino, body: Bytes)
    // copy_object
    | CopyNew(loc: Loc, src: Loc, replace: Option<Attrs>)
    | CopyKnown(loc: Loc, src: Loc, replace: Option<Attrs>, from: Meta, seen: Version)
    | CopyLocked(loc: Loc, src: Loc, replace: Option<Attrs>, from: Meta, seen: Version)
    | CopyHashing(loc: Loc, given: Attrs, seen: Version, name: Name, hashed: Bytes)
    // complete_multipart, from the end of its validation on
    | JoinNew(loc: Loc, attrs: Attrs, parts: seq<Bytes>)
    | JoinLocked(loc: Loc, attrs: Attrs, parts: seq<Bytes>)
    | JoinWriting(loc: Loc, attrs: Attrs, parts: seq<Bytes>, name: Name, ino: Ino, wrote: nat)
    // the common tail of the three installs: metadata swap and garbage collection
    | Ready(loc: Loc, goal: Goal, meta: Meta)
    | Staged(loc: Loc, goal: Goal, meta: Meta, metaTmp: Name)
    | Undoing(loc: Loc, name: Name)
    | Published(loc: Loc, goal: Goal, meta: Meta)
    | Sweeping(loc: Loc, goal: Goal, meta: Meta, todo: set<Name>)
    // delete_object
    | DelNew(loc: Loc)
    | DelLocked(loc: Loc)
    | DelPresent(loc: Loc)
    | DelKnown(loc: Loc, data: Option<Name>)
    | DelGone(loc: Loc, name: Name)
    // get_object_range and the streaming of its reader
    | GetNew(loc: Loc, start: nat, len: Option<nat>)
    | GetKnown(loc: Loc, start: nat, len: Option<nat>, from: Meta, seen: Version)
    | GetStreaming(loc: Loc, start: nat, len: Option<nat>, seen: Version, ino: Ino, out: Bytes)
    // ended
    | InstallDone(loc: Loc, goal: Goal, meta: Meta, swept: bool)
    | DelDone(loc: Loc, removed: bool)
    | GetDone(loc: Loc, start: nat, len: Option<nat>, seen: Version, out: Bytes)
    | Failed(loc: Loc)
    | Lost(loc: Loc, was: Op)   // cancelled, or running when the process crashed

  /** A crash loses the locks and the requests and keeps the disk. */
  datatype Sys = Sys(disk: Disk, locks: map<Loc, Id>, ops: map<Id, Op>)

  const EMPTY := Sys(Disk(map[], map[], map[], map[], map[], map[], map[], map[]), map[], map[])

  /** One file system call of a request, with what the environment decides about it. */
  datatype Call =
    | Acquire
    | Fail                                  // a call fails and the error is returned at once
    | Cancel                                // the request is dropped between two calls
    | PutCreate(name: Name, ino: Ino)
    | PutChunk(chunk: Bytes)
    | PutBreak                              // body error, oversized body, or failed write
    | PutRemove
    | PutSync
    | PutRename(name: Name)
    | CopyRead
    | CopyLink(name: Name)
    | CopyBytes(name: Name, ino: Ino)       // the link failed, the copy succeeds
    | CopyPartly(name: Name, ino: Ino, some: Bytes)   // both fail, leaving a partial file
    | CopyHash(n: nat)
    | CopyHashed
    | JoinCreate(name: Name, ino: Ino)
    | JoinAppend(n: nat)
    | JoinSync
    | StageMeta(name: Name)
    | StageFails
    | PublishMeta
    | PublishFails
    | UndoData
    | GcSkip                                // the directory cannot be listed to its end
    | GcList
    | GcUnlink(name: Name)
    | GcEnd
    | DelProbe
    | DelRead(ok: bool)
    | DelMeta
    | DelData
    | GetMeta
    | GetOpen
    | GetRead(n: nat)
    | GetEnd

  datatype Act =
    | Arrive(i: Id, op: Op)
    | Take(i: Id, call: Call)
    | Crash
    | CleanTmp(name: Name)

  // ---- program counters ----

  predicate Initial(op: Op) {
    op.PutNew? || op.CopyNew? || op.JoinNew? || op.DelNew? || op.GetNew?
  }

  predicate Ended(op: Op) {
    op.InstallDone? || op.DelDone? || op.GetDone? || op.Failed? || op.Lost?
  }

  predicate Waiting(op: Op) {
    op.PutNew? || op.CopyKnown? || op.JoinNew? || op.DelNew?
  }

  /** Filling the staging file or the new data file. */
  predicate Producing(op: Op) {
    op.PutStreaming? || op.PutBroken? || op.PutSynced? || op.CopyHashing? || op.JoinWriting?
  }

  /** Swapping the metadata and collecting garbage. */
  predicate Swapping(op: Op) {
    op.Ready? || op.Staged? || op.Undoing? || op.Published? || op.Sweeping?
  }

  predicate Deleting(op: Op) {
    op.DelLocked? || op.DelPresent? || op.DelKnown? || op.DelGone?
  }

  /** The request holds the lock of its object. */
  predicate Holds(op: Op) {
    Producing(op) || Swapping(op) || Deleting(op) || op.PutLocked? || op.CopyLocked? || op.JoinLocked?
  }

  /** Where an error is returned to the caller with no further call. */
  predicate CanFail(op: Op) {
    || Waiting(op) || op.PutLocked? || op.PutStreaming? || op.PutSynced?
    || op.CopyNew? || op.CopyLocked? || op.CopyHashing? || op.JoinLocked? || op.JoinWriting?
    || op.GetNew? || op.GetKnown? || op.GetStreaming?
  }

  function Locked(op: Op): Op
    requires Waiting(op)
  {
    match op
    case PutNew(loc, attrs) => PutLocked(loc, attrs)
    case CopyKnown(loc, src, replace, from, seen) => CopyLocked(loc, src, replace, from, seen)
    case JoinNew(loc, attrs, parts) => JoinLocked(loc, attrs, parts)
    case DelNew(loc) => DelLocked(loc)
  }

  // ---- reading the disk ----

  function VersionOf(m: Meta, bytes: Bytes): Version {
    Version(m.key, m.size, m.etag, m.attrs, bytes)
  }

  /** The bytes of the data file that metadata of `loc` names, if it is there. */
  function Content(d: Disk, loc: Loc, n: Name): Option<Bytes> {
    var e := Entry(loc, n);
    if e in d.data && d.data[e] in d.inodes then Some(d.inodes[d.data[e]]) else None
  }

  /** The version that the metadata file of `loc` and the file it names make up. */
  function Current(d: Disk, loc: Loc): Version
    requires loc in d.meta
  {
    var file := Content(d, loc, d.meta[loc].data);
    VersionOf(d.meta[loc], if file.Some? then file.value else [])
  }

  function Names(d: Disk, loc: Loc): set<Name> {
    set e | e in d.data && e.loc == loc :: e.name
  }

  predicate Fresh(d: Disk, n: Name) {
    n !in d.drawn
  }

  /** The metadata a copy writes: source ETag and attributes, or recomputed ones under REPLACE. */
  function CopyMeta(md5: Md5, loc: Loc, seen: Version, replace: Option<Attrs>, hashed: Bytes, n: Name): Meta {
    match replace
    case None => Meta(loc.key, seen.size, seen.etag, seen.attrs, n)
    case Some(attrs) => Meta(loc.key, seen.size, PlainEtag(md5, hashed), attrs, n)
  }

  /** How many bytes a stream that `start` and `len` describe may still deliver. */
  function Wanted(size: nat, start: nat, len: Option<nat>): nat {
    var left := if start <= size then size - start else 0;
    if len.Some? then Min(len.value, left) else left
  }

  /** `n` bytes of a file from position `at` on. */
  function Block(file: Bytes, at: nat, n: nat): (b: Bytes)
    requires at + n <= |file|
    ensures |b| == n
  {
    file[at..at + n]
  }

  // ---- changing the disk ----

  function Drew(d: Disk, n: Name, i: Id, loc: Loc): Disk {
    d.(drawn := d.drawn[n := Draw(i, loc)])
  }

  /** `File::create` of a staging file. */
  function TmpCreated(d: Disk, i: Id, loc: Loc, n: Name, ino: Ino): Disk {
    Drew(d, n, i, loc)
      .(tmp := d.tmp[n := ino], inodes := d.inodes[ino := []], writer := d.writer[ino := i])
  }

  /** `File::create` of a data file that is filled in place. */
  function DataCreated(d: Disk, i: Id, loc: Loc, n: Name, ino: Ino): Disk {
    Drew(d, n, i, loc)
      .(data := d.data[Entry(loc, n) := ino], inodes := d.inodes[ino := []], writer := d.writer[ino := i])
  }

  function Appended(d: Disk, ino: Ino, c: Bytes): Disk
    requires ino in d.inodes
  {
    d.(inodes := d.inodes[ino := d.inodes[ino] + c])
  }

  /** The writer has synced the file and drops its handle. */
  function Closed(d: Disk, ino: Ino): Disk {
    d.(writer := d.writer - {ino})
  }

  function TmpRemoved(d: Disk, n: Name): Disk {
    d.(tmp := d.tmp - {n})
  }

  function TmpInstalled(d: Disk, i: Id, loc: Loc, t: Name, n: Name): Disk
    requires t in d.tmp
  {
    Drew(d, n, i, loc).(tmp := d.tmp - {t}, data := d.data[Entry(loc, n) := d.tmp[t]])
  }

  function DataLinked(d: Disk, i: Id, loc: Loc, n: Name, ino: Ino): Disk {
    Drew(d, n, i, loc).(data := d.data[Entry(loc, n) := ino])
  }

  /** A new data file written by one call. */
  function DataCopied(d: Disk, i: Id, loc: Loc, n: Name, ino: Ino, b: Bytes): Disk {
    DataLinked(d.(inodes := d.inodes[ino := b]), i, loc, n, ino)
  }

  function DataRemoved(d: Disk, e: Entry): Disk {
    d.(data := d.data - {e})
  }

  function MetaWritten(d: Disk, i: Id, loc: Loc, n: Name, m: Meta): Disk {
    Drew(d, n, i, loc).(metaTmp := d.metaTmp[Entry(loc, n) := m])
  }

  /** The rename over `meta.json`: the staged version becomes the current one. */
  function MetaRenamed(d: Disk, t: Entry): Disk
    requires t in d.metaTmp
  {
    var m := d.metaTmp[t];
    var file := Content(d, t.loc, m.data);
    d.(metaTmp := d.metaTmp - {t}, meta := d.meta[t.loc := m],
       sealed := d.sealed[m.data := if file.Some? then file.value else []])
  }

  function MetaRemoved(d: Disk, loc: Loc): Disk {
    d.(meta := d.meta - {loc})
  }

  // ---- when a call can happen ----

  predicate CanTake(d: Disk, locks: map<Loc, Id>, op: Op, c: Call) {
    match c
    case Acquire => Waiting(op) && op.loc !in locks
    case Fail => CanFail(op)
    case Cancel => !Ended(op)
    case PutCreate(n, ino) => op.PutLocked? && Fresh(d, n) && ino !in d.inodes
    case PutChunk(b) => op.PutStreaming? && |op.body| + |b| <= MAX_OBJECT_SIZE && op.ino in d.inodes
    case PutBreak => op.PutStreaming?
    case PutRemove => op.PutBroken?
    case PutSync => op.PutStreaming?
    case PutRename(n) => op.PutSynced? && Fresh(d, n) && op.tmp in d.tmp
    case CopyRead => op.CopyNew? && op.src in d.meta
    case CopyLink(n) => op.CopyLocked? && Fresh(d, n) && Entry(op.src, op.from.data) in d.data
    case CopyBytes(n, ino) =>
      op.CopyLocked? && Fresh(d, n) && ino !in d.inodes && Content(d, op.src, op.from.data).Some?
    case CopyPartly(n, ino, _) => op.CopyLocked? && Fresh(d, n) && ino !in d.inodes
    case CopyHash(n) =>
      op.CopyHashing? && Content(d, op.loc, op.name).Some?
      && 0 < n && |op.hashed| + n <= |Content(d, op.loc, op.name).value|
    case CopyHashed =>
      op.CopyHashing? && Content(d, op.loc, op.name).Some?
      && |op.hashed| == |Content(d, op.loc, op.name).value|
    case JoinCreate(n, ino) => op.JoinLocked? && Fresh(d, n) && ino !in d.inodes
    case JoinAppend(n) =>
      op.JoinWriting? && op.ino in d.inodes && 0 < n && op.wrote + n <= |Concat(op.parts)|
    case JoinSync => op.JoinWriting? && op.wrote == |Concat(op.parts)|
    case StageMeta(n) => op.Ready? && Fresh(d, n)
    case StageFails => op.Ready?
    case PublishMeta => op.Staged? && Entry(op.loc, op.metaTmp) in d.metaTmp
    case PublishFails => op.Staged?
    case UndoData => op.Undoing?
    case GcSkip => op.Published? || op.Sweeping?
    case GcList => op.Published?
    case GcUnlink(n) => op.Sweeping? && n in op.todo && n != op.meta.data
    case GcEnd => op.Sweeping? && op.todo <= {op.meta.data}
    case DelProbe => op.DelLocked?
    case DelRead(ok) => op.DelPresent? && (ok ==> op.loc in d.meta)
    case DelMeta => op.DelKnown?
    case DelData => op.DelGone?
    case GetMeta => op.GetNew? && op.loc in d.meta
    case GetOpen => op.GetKnown? && Entry(op.loc, op.from.data) in d.data
    case GetRead(n) =>
      op.GetStreaming? && op.ino in d.inodes && 0 < n
      && |op.out| + n <= Wanted(op.seen.size, op.start, op.len)
      && op.start + |op.out| + n <= |d.inodes[op.ino]|
    case GetEnd =>
      op.GetStreaming? && op.ino in d.inodes
      && (|op.out| == Wanted(op.seen.size, op.start, op.len)
          || op.start + |op.out| >= |d.inodes[op.ino]|)
  }

  // ---- what a call does to its request ----

  predicate IsPutCall(c: Call) {
    c.PutCreate? || c.PutChunk? || c.PutBreak? || c.PutRemove? || c.PutSync? || c.PutRename?
  }

  predicate IsCopyCall(c: Call) {
    c.CopyRead? || c.CopyLink? || c.CopyBytes? || c.CopyPartly? || c.CopyHash? || c.CopyHashed?
  }

  predicate IsJoinCall(c: Call) {
    c.JoinCreate? || c.JoinAppend? || c.JoinSync?
  }

  predicate IsSwapCall(c: Call) {
    || c.StageMeta? || c.StageFails? || c.PublishMeta? || c.PublishFails? || c.UndoData?
    || c.GcSkip? || c.GcList? || c.GcUnlink? || c.GcEnd?
  }

  predicate IsDelCall(c: Call) {
    c.DelProbe? || c.DelRead? || c.DelMeta? || c.DelData?
  }

  predicate IsGetCall(c: Call) {
    c.GetMeta? || c.GetOpen? || c.GetRead? || c.GetEnd?
  }

  /** put_object up to the rename of its staged file into the object directory. */
  function PutNext(md5: Md5, d: Disk, locks: map<Loc, Id>, op: Op, c: Call): Op
    requires IsPutCall(c) && CanTake(d, locks, op, c)
  {
    match c
    case PutCreate(n, ino) => PutStreaming(op.loc, op.attrs, n, ino, [])
    case PutChunk(b) => PutStreaming(op.loc, op.attrs, op.tmp, op.ino, op.body + b)
    case PutBreak => PutBroken(op.loc, op.tmp)
    case PutRemove => Failed(op.loc)
    case PutSync => PutSynced(op.loc, op.attrs, op.tmp, op.ino, op.body)
    case PutRename(n) =>
      Ready(op.loc, Upload(op.body, op.attrs),
            Meta(op.loc.key, |op.body|, PlainEtag(md5, op.body), op.attrs, n))
  }

  function PutDisk(d: Disk, locks: map<Loc, Id>, i: Id, op: Op, c: Call): Disk
    requires IsPutCall(c) && CanTake(d, locks, op, c)
  {
    match c
    case PutCreate(n, ino) => TmpCreated(d, i, op.loc, n, ino)
    case PutChunk(b) => Appended(d, op.ino, b)
    case PutBreak => d
    case PutRemove => TmpRemoved(d, op.tmp)
    case PutSync => Closed(d, op.ino)
    case PutRename(n) => TmpInstalled(d, i, op.loc, op.tmp, n)
  }

  /** copy_object up to its data file being in place and, under REPLACE, hashed. */
  function CopyNext(md5: Md5, d: Disk, locks: map<Loc, Id>, op: Op, c: Call): Op
    requires IsCopyCall(c) && CanTake(d, locks, op, c)
  {
    match c
    case CopyRead => CopyKnown(op.loc, op.src, op.replace, d.meta[op.src], Current(d, op.src))
    case CopyLink(n) => CopyArrived(md5, op, n)
    case CopyBytes(n, _) => CopyArrived(md5, op, n)
    case CopyPartly(_, _, _) => Failed(op.loc)
    case CopyHash(n) =>
      var file := Content(d, op.loc, op.name).value;
      CopyHashing(op.loc, op.given, op.seen, op.name, op.hashed + Block(file, |op.hashed|, n))
    case CopyHashed =>
      Ready(op.loc, Duplicate(op.seen, Some(op.given)),
            CopyMeta(md5, op.loc, op.seen, Some(op.given), op.hashed, op.name))
  }

  function CopyArrived(md5: Md5, op: Op, n: Name): Op
    requires op.CopyLocked?
  {
    match op.replace
    case Some(given) => CopyHashing(op.loc, given, op.seen, n, [])
    case None => Ready(op.loc, Duplicate(op.seen, None), CopyMeta(md5, op.loc, op.seen, None, [], n))
  }

  function CopyDisk(d: Disk, locks: map<Loc, Id>, i: Id, op: Op, c: Call): Disk
    requires IsCopyCall(c) && CanTake(d, locks, op, c)
  {
    match c
    case CopyLink(n) => DataLinked(d, i, op.loc, n, d.data[Entry(op.src, op.from.data)])
    case CopyBytes(n, ino) =>
      DataCopied(d, i, op.loc, n, ino, Content(d, op.src, op.from.data).value)
    case CopyPartly(n, ino, some) => DataCopied(d, i, op.loc, n, ino, some)
    case _ => d
  }

  /** complete_multipart up to its data file being assembled and synced. */
  function JoinNext(md5: Md5, d: Disk, locks: map<Loc, Id>, op: Op, c: Call): Op
    requires IsJoinCall(c) && CanTake(d, locks, op, c)
  {
    match c
    case JoinCreate(n, ino) => JoinWriting(op.loc, op.attrs, op.parts, n, ino, 0)
    case JoinAppend(n) => JoinWriting(op.loc, op.attrs, op.parts, op.name, op.ino, op.wrote + n)
    case JoinSync =>
      Ready(op.loc, Assembly(op.parts, op.attrs),
            Meta(op.loc.key, |Concat(op.parts)|, MultipartEtag(md5, op.parts), op.attrs, op.name))
  }

  function JoinDisk(d: Disk, locks: map<Loc, Id>, i: Id, op: Op, c: Call): Disk
    requires IsJoinCall(c) && CanTake(d, locks, op, c)
  {
    match c
    case JoinCreate(n, ino) => DataCreated(d, i, op.loc, n, ino)
    case JoinAppend(n) => Appended(d, op.ino, Block(Concat(op.parts), op.wrote, n))
    case JoinSync => Closed(d, op.ino)
  }

  /** The metadata swap and the garbage collection that end every install. */
  function SwapNext(d: Disk, locks: map<Loc, Id>, op: Op, c: Call): Op
    requires IsSwapCall(c) && CanTake(d, locks, op, c)
  {
    match c
    case StageMeta(n) => Staged(op.loc, op.goal, op.meta, n)
    case StageFails => Undoing(op.loc, op.meta.data)
    case PublishMeta => Published(op.loc, op.goal, op.meta)
    case PublishFails => Undoing(op.loc, op.meta.data)
    case UndoData => Failed(op.loc)
    case GcSkip => InstallDone(op.loc, op.goal, op.meta, false)
    case GcList => Sweeping(op.loc, op.goal, op.meta, Names(d, op.loc))
    case GcUnlink(n) => Sweeping(op.loc, op.goal, op.meta, op.todo - {n})
    case GcEnd => InstallDone(op.loc, op.goal, op.meta, true)
  }

  function SwapDisk(d: Disk, locks: map<Loc, Id>, i: Id, op: Op, c: Call): Disk
    requires IsSwapCall(c) && CanTake(d, locks, op, c)
  {
    match c
    case StageMeta(n) => MetaWritten(d, i, op.loc, n, op.meta)
    case PublishMeta => MetaRenamed(d, Entry(op.loc, op.metaTmp))
    case UndoData => DataRemoved(d, Entry(op.loc, op.name))
    case GcUnlink(n) => DataRemoved(d, Entry(op.loc, n))
    case _ => d
  }

  /** delete_object: the metadata goes first, then the data file it named. */
  function DelNext(d: Disk, locks: map<Loc, Id>, op: Op, c: Call): Op
    requires IsDelCall(c) && CanTake(d, locks, op, c)
  {
    match c
    case DelProbe => if op.loc in d.meta then DelPresent(op.loc) else DelDone(op.loc, false)
    case DelRead(ok) => DelKnown(op.loc, if ok then Some(d.meta[op.loc].data) else None)
    case DelMeta => if op.data.Some? then DelGone(op.loc, op.data.value) else DelDone(op.loc, true)
    case DelData => DelDone(op.loc, true)
  }

  function DelDisk(d: Disk, locks: map<Loc, Id>, op: Op, c: Call): Disk
    requires IsDelCall(c) && CanTake(d, locks, op, c)
  {
    match c
    case DelMeta => MetaRemoved(d, op.loc)
    case DelData => DataRemoved(d, Entry(op.loc, op.name))
    case _ => d
  }

  /** get_object_range, which takes no lock, and its stream of at most `Wanted` bytes. */
  function GetNext(d: Disk, locks: map<Loc, Id>, op: Op, c: Call): Op
    requires IsGetCall(c) && CanTake(d, locks, op, c)
  {
    match c
    case GetMeta => GetKnown(op.loc, op.start, op.len, d.meta[op.loc], Current(d, op.loc))
    case GetOpen =>
      GetStreaming(op.loc, op.start, op.len, op.seen, d.data[Entry(op.loc, op.from.data)], [])
    case GetRead(n) =>
      GetStreaming(op.loc, op.start, op.len, op.seen, op.ino,
                   op.out + Block(d.inodes[op.ino], op.start + |op.out|, n))
    case GetEnd => GetDone(op.loc, op.start, op.len, op.seen, op.out)
  }

  function Next(md5: Md5, d: Disk, locks: map<Loc, Id>, op: Op, c: Call): Op
    requires CanTake(d, locks, op, c)
  {
    if c.Acquire? then Locked(op)
    else if c.Fail? then Failed(op.loc)
    else if c.Cancel? then Lost(op.loc, op)
    else if IsPutCall(c) then PutNext(md5, d, locks, op, c)
    else if IsCopyCall(c) then CopyNext(md5, d, locks, op, c)
    else if IsJoinCall(c) then JoinNext(md5, d, locks, op, c)
    else if IsSwapCall(c) then SwapNext(d, locks, op, c)
    else if IsDelCall(c) then DelNext(d, locks, op, c)
    else GetNext(d, locks, op, c)
  }

  function NextDisk(d: Disk, locks: map<Loc, Id>, i: Id, op: Op, c: Call): Disk
    requires CanTake(d, locks, op, c)
  {
    if IsPutCall(c) then PutDisk(d, locks, i, op, c)
    else if IsCopyCall(c) then CopyDisk(d, locks, i, op, c)
    else if IsJoinCall(c) then JoinDisk(d, locks, i, op, c)
    else if IsSwapCall(c) then SwapDisk(d, locks, i, op, c)
    else if IsDelCall(c) then DelDisk(d, locks, op, c)
    else d
  }

  // ---- steps of the system ----

  function Released(locks: map<Loc, Id>, i: Id): map<Loc, Id> {
    map loc | loc in locks && locks[loc] != i :: locks[loc]
  }

  /** The lock table once request `i` stands at `op`: taken, kept, or dropped with its guard. */
  function NextLocks(locks: map<Loc, Id>, i: Id, op: Op): map<Loc, Id> {
    if Holds(op) then locks[op.loc := i] else Released(locks, i)
  }

  function LostOp(op: Op): Op {
    if Ended(op) then op else Lost(op.loc, op)
  }

  predicate Enabled(s: Sys, a: Act) {
    match a
    case Arrive(i, op) => i !in s.ops && Initial(op)
    case Take(i, c) => i in s.ops && CanTake(s.disk, s.locks, s.ops[i], c)
    case Crash => true
    case CleanTmp(n) => n in s.disk.tmp
  }

  function Do(md5: Md5, s: Sys, a: Act): Sys
    requires Enabled(s, a)
  {
    match a
    case Arrive(i, op) => s.(ops := s.ops[i := op])
    case Take(i, c) =>
      var next := Next(md5, s.disk, s.locks, s.ops[i], c);
      Sys(NextDisk(s.disk, s.locks, i, s.ops[i], c), NextLocks(s.locks, i, next), s.ops[i := next])
    case Crash => Sys(s.disk, map[], map i | i in s.ops :: LostOp(s.ops[i]))
    case CleanTmp(n) => s.(disk := TmpRemoved(s.disk, n))
  }
}
