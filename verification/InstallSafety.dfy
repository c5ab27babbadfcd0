/** The invariant of the install protocol, and why a request is not disturbed by the others. */
module InstallSafety {
  import opened ByteStrings
  import opened Objects
  import opened Install

  // ---- what is true of the disk for one request ----

  /** Name `n` was drawn by request `i` for `loc`. */
  predicate DrawnBy(d: Disk, n: Name, i: Id, loc: Loc) {
    n in d.drawn && d.drawn[n] == Draw(i, loc)
  }

  /** File `ino` is complete: nobody writes it any more, and it holds `b`. */
  predicate Frozen(d: Disk, ino: Ino, b: Bytes) {
    ino in d.inodes && ino !in d.writer && d.inodes[ino] == b
  }

  predicate Writing(d: Disk, i: Id, ino: Ino, b: Bytes) {
    ino in d.inodes && ino in d.writer && d.writer[ino] == i && d.inodes[ino] == b
  }

  predicate Staging(d: Disk, i: Id, loc: Loc, tmp: Name, ino: Ino) {
    DrawnBy(d, tmp, i, loc) && (tmp in d.tmp ==> d.tmp[tmp] == ino)
  }

  /** An unpublished data file that request `i` has put in place. */
  predicate OwnEntry(d: Disk, i: Id, e: Entry, ino: Ino) {
    DrawnBy(d, e.name, i, e.loc) && e.name !in d.sealed && e in d.data && d.data[e] == ino
  }

  ghost predicate Sound(md5: Md5, v: Version) {
    |v.bytes| == v.size && EtagOk(md5, v.etag, v.bytes)
  }

  /** `m` and `v` describe one version that was published at some time. */
  ghost predicate Known(md5: Md5, d: Disk, m: Meta, v: Version) {
    m.data in d.sealed && v == VersionOf(m, d.sealed[m.data]) && Sound(md5, v)
  }

  /** Version `v` of `loc` is what `goal` asks to store there. */
  ghost predicate Meets(md5: Md5, loc: Loc, goal: Goal, v: Version) {
    && v.key == loc.key
    && Sound(md5, v)
    && match goal
       case Upload(body, attrs) => v.bytes == body && v.attrs == attrs && v.etag == PlainEtag(md5, body)
       case Duplicate(src, None) => v.bytes == src.bytes && v.attrs == src.attrs && v.etag == src.etag
       case Duplicate(src, Some(attrs)) =>
         v.bytes == src.bytes && v.attrs == attrs && v.etag == PlainEtag(md5, src.bytes)
       case Assembly(parts, attrs) =>
         v.bytes == Concat(parts) && v.attrs == attrs && v.etag == MultipartEtag(md5, parts)
  }

  /** The data file of an install is complete and in place, but not yet published. */
  ghost predicate InPlace(md5: Md5, d: Disk, i: Id, loc: Loc, goal: Goal, m: Meta) {
    exists ino, b ::
      OwnEntry(d, i, Entry(loc, m.data), ino) && Frozen(d, ino, b) && Meets(md5, loc, goal, VersionOf(m, b))
  }

  ghost predicate WasOut(md5: Md5, d: Disk, loc: Loc, goal: Goal, m: Meta) {
    m.data in d.sealed && Meets(md5, loc, goal, VersionOf(m, d.sealed[m.data]))
  }

  predicate IsMeta(d: Disk, loc: Loc, m: Meta) {
    loc in d.meta && d.meta[loc] == m
  }

  predicate IsMetaTmp(d: Disk, e: Entry, m: Meta) {
    e in d.metaTmp && d.metaTmp[e] == m
  }

  /** Files listed for removal cover everything in the directory but the file to keep. */
  ghost predicate Covers(d: Disk, loc: Loc, keep: Name, todo: set<Name>) {
    forall e: Entry :: e in d.data && e.loc == loc && e.name != keep ==> e.name in todo
  }

  ghost predicate ProducingInv(md5: Md5, d: Disk, i: Id, op: Op)
    requires Producing(op)
  {
    match op
    case PutStreaming(loc, _, tmp, ino, body) => Staging(d, i, loc, tmp, ino) && Writing(d, i, ino, body)
    case PutBroken(loc, tmp) => DrawnBy(d, tmp, i, loc)
    case PutSynced(loc, _, tmp, ino, body) => Staging(d, i, loc, tmp, ino) && Frozen(d, ino, body)
    case CopyHashing(loc, _, seen, name, hashed) =>
      && Sound(md5, seen) && hashed <= seen.bytes
      && exists ino :: OwnEntry(d, i, Entry(loc, name), ino) && Frozen(d, ino, seen.bytes)
    case JoinWriting(loc, _, parts, name, ino, wrote) =>
      && OwnEntry(d, i, Entry(loc, name), ino)
      && wrote <= |Concat(parts)| && Writing(d, i, ino, Concat(parts)[..wrote])
  }

  ghost predicate SwappingInv(md5: Md5, d: Disk, i: Id, op: Op)
    requires Swapping(op)
  {
    match op
    case Ready(loc, goal, m) => InPlace(md5, d, i, loc, goal, m)
    case Staged(loc, goal, m, t) =>
      InPlace(md5, d, i, loc, goal, m) && DrawnBy(d, t, i, loc) && IsMetaTmp(d, Entry(loc, t), m)
    case Undoing(loc, name) => DrawnBy(d, name, i, loc) && name !in d.sealed
    case Published(loc, goal, m) => IsMeta(d, loc, m) && WasOut(md5, d, loc, goal, m)
    case Sweeping(loc, goal, m, todo) =>
      IsMeta(d, loc, m) && WasOut(md5, d, loc, goal, m) && Covers(d, loc, m.data, todo)
  }

  predicate DeletingInv(d: Disk, op: Op)
    requires Deleting(op)
  {
    match op
    case DelLocked(_) => true
    case DelPresent(loc) => loc in d.meta
    case DelKnown(loc, data) => loc in d.meta && (data.Some? ==> d.meta[loc].data == data.value)
    case DelGone(loc, _) => loc !in d.meta
  }

  /** A read delivered a prefix of the slice it was asked for. */
  predicate Delivered(seen: Version, start: nat, len: Option<nat>, out: Bytes) {
    out <= Slice(seen.bytes, start, len)
  }

  ghost predicate FreeInv(md5: Md5, d: Disk, op: Op) {
    match op
    case CopyKnown(_, _, _, m, seen) => Known(md5, d, m, seen)
    case CopyLocked(_, _, _, m, seen) => Known(md5, d, m, seen)
    case GetKnown(_, _, _, m, seen) => Known(md5, d, m, seen)
    case GetStreaming(_, start, len, seen, ino, out) =>
      Sound(md5, seen) && Frozen(d, ino, seen.bytes) && Delivered(seen, start, len, out)
    case InstallDone(loc, goal, m, _) => WasOut(md5, d, loc, goal, m)
    case Lost(_, was) =>
      !Ended(was) && ((was.Published? || was.Sweeping?) ==> WasOut(md5, d, was.loc, was.goal, was.meta))
    case GetDone(_, start, len, seen, out) => out == Slice(seen.bytes, start, len)
    case _ => true
  }

  ghost predicate OpInv(md5: Md5, d: Disk, i: Id, op: Op) {
    if Producing(op) then ProducingInv(md5, d, i, op)
    else if Swapping(op) then SwappingInv(md5, d, i, op)
    else if Deleting(op) then DeletingInv(d, op)
    else FreeInv(md5, d, op)
  }

  // ---- what is true of the disk and of the lock table ----

  ghost predicate MetaOk(md5: Md5, d: Disk, loc: Loc)
    requires loc in d.meta
  {
    var m := d.meta[loc];
    && m.key == loc.key
    && Entry(loc, m.data) in d.data
    && m.data in d.sealed
    && Sound(md5, VersionOf(m, d.sealed[m.data]))
  }

  predicate EntryOk(d: Disk, e: Entry)
    requires e in d.data
  {
    && e.name in d.drawn && d.drawn[e.name].loc == e.loc
    && d.data[e] in d.inodes
    && (e.name in d.sealed ==> Frozen(d, d.data[e], d.sealed[e.name]))
  }

  ghost predicate NamesOk(d: Disk) {
    && (forall n :: n in d.sealed ==> n in d.drawn)
    && (forall x :: x in d.writer ==> x in d.inodes)
    && (forall n :: n in d.tmp ==> n in d.drawn)
  }

  ghost predicate DiskOk(md5: Md5, d: Disk) {
    && NamesOk(d)
    && (forall loc :: loc in d.meta ==> MetaOk(md5, d, loc))
    && (forall e :: e in d.data ==> EntryOk(d, e))
  }

  predicate HasLock(locks: map<Loc, Id>, i: Id, loc: Loc) {
    loc in locks && locks[loc] == i
  }

  /** Locks and the program counters of their holders agree, so a lock is never left behind. */
  ghost predicate LocksOk(s: Sys) {
    && (forall loc :: loc in s.locks ==> Guards(s, s.locks[loc], loc))
    && (forall i :: i in s.ops && Holds(s.ops[i]) ==> HasLock(s.locks, i, s.ops[i].loc))
  }

  predicate Guards(s: Sys, i: Id, loc: Loc) {
    i in s.ops && Holds(s.ops[i]) && s.ops[i].loc == loc
  }

  ghost predicate OpsOk(md5: Md5, s: Sys) {
    forall i :: i in s.ops ==> OpInv(md5, s.disk, i, s.ops[i])
  }

  ghost predicate Inv(md5: Md5, s: Sys) {
    DiskOk(md5, s.disk) && LocksOk(s) && OpsOk(md5, s)
  }

  // ---- what a step of request i does to the others' part of the disk ----

  /** Published bytes, drawn names, and files of others stay; `i` only publishes its own names. */
  ghost predicate KeepsNames(d: Disk, e: Disk, i: Id) {
    && (forall n :: n in d.drawn ==> n in e.drawn && e.drawn[n] == d.drawn[n])
    && (forall n :: n in d.sealed ==> n in e.sealed && e.sealed[n] == d.sealed[n])
    && (forall n :: n in e.sealed && n !in d.sealed ==> n in d.drawn && d.drawn[n].who == i)
    && (forall n :: n in e.tmp && n in d.drawn && d.drawn[n].who != i ==> n in d.tmp && e.tmp[n] == d.tmp[n])
  }

  predicate SameFile(d: Disk, e: Disk, x: Ino)
    requires x in d.inodes
  {
    x in e.inodes && e.inodes[x] == d.inodes[x]
  }

  ghost predicate KeepsFiles(d: Disk, e: Disk, i: Id) {
    && (forall x :: x in d.inodes && x !in d.writer ==> SameFile(d, e, x) && x !in e.writer)
    && (forall x :: x in d.inodes && x in d.writer && d.writer[x] != i ==>
          SameFile(d, e, x) && x in e.writer && e.writer[x] == d.writer[x])
  }

  /** Only the directory of `loc` changes. */
  ghost predicate KeepsPlaces(d: Disk, e: Disk, loc: Loc) {
    && (forall l :: l != loc ==> (l in d.meta <==> l in e.meta))
    && (forall l :: l != loc && l in d.meta ==> e.meta[l] == d.meta[l])
    && (forall x: Entry :: x.loc != loc ==> (x in d.data <==> x in e.data))
    && (forall x: Entry :: x.loc != loc && x in d.data ==> e.data[x] == d.data[x])
    && (forall x: Entry :: x.loc != loc && x in d.metaTmp ==> x in e.metaTmp && e.metaTmp[x] == d.metaTmp[x])
  }

  ghost predicate Keeps(d: Disk, e: Disk, i: Id, loc: Loc) {
    KeepsNames(d, e, i) && KeepsFiles(d, e, i) && KeepsPlaces(d, e, loc)
  }

  // ---- each part of a request's invariant survives the steps of the others ----

  lemma DrawStays(d: Disk, e: Disk, i: Id, j: Id, loc: Loc, n: Name)
    requires i != j && KeepsNames(d, e, i) && DrawnBy(d, n, j, loc)
    ensures DrawnBy(e, n, j, loc)
    ensures n !in d.sealed ==> n !in e.sealed
  {}

  lemma KnownStays(md5: Md5, d: Disk, e: Disk, i: Id, m: Meta, v: Version)
    requires KeepsNames(d, e, i) && Known(md5, d, m, v)
    ensures Known(md5, e, m, v)
  {}

  lemma WasOutStays(md5: Md5, d: Disk, e: Disk, i: Id, loc: Loc, goal: Goal, m: Meta)
    requires KeepsNames(d, e, i) && WasOut(md5, d, loc, goal, m)
    ensures WasOut(md5, e, loc, goal, m)
  {}

  lemma FrozenStays(d: Disk, e: Disk, i: Id, x: Ino, b: Bytes)
    requires KeepsFiles(d, e, i) && Frozen(d, x, b)
    ensures Frozen(e, x, b)
  {}

  lemma WritingStays(d: Disk, e: Disk, i: Id, j: Id, x: Ino, b: Bytes)
    requires i != j && KeepsFiles(d, e, i) && Writing(d, j, x, b)
    ensures Writing(e, j, x, b)
  {}

  lemma StagingStays(d: Disk, e: Disk, i: Id, j: Id, loc: Loc, tmp: Name, ino: Ino)
    requires i != j && KeepsNames(d, e, i) && Staging(d, j, loc, tmp, ino)
    ensures Staging(e, j, loc, tmp, ino)
  {}

  lemma OwnEntryStays(d: Disk, e: Disk, i: Id, j: Id, own: Loc, x: Entry, ino: Ino)
    requires i != j && KeepsNames(d, e, i) && KeepsPlaces(d, e, own) && x.loc != own && OwnEntry(d, j, x, ino)
    ensures OwnEntry(e, j, x, ino)
  {
    DrawStays(d, e, i, j, x.loc, x.name);
  }

  lemma InPlaceStays(md5: Md5, d: Disk, e: Disk, i: Id, j: Id, own: Loc, loc: Loc, goal: Goal, m: Meta)
    requires i != j && Keeps(d, e, i, own) && loc != own && InPlace(md5, d, j, loc, goal, m)
    ensures InPlace(md5, e, j, loc, goal, m)
  {
    var ino, b :| OwnEntry(d, j, Entry(loc, m.data), ino) && Frozen(d, ino, b)
                  && Meets(md5, loc, goal, VersionOf(m, b));
    OwnEntryStays(d, e, i, j, own, Entry(loc, m.data), ino);
    FrozenStays(d, e, i, ino, b);
  }

  lemma MetaStays(d: Disk, e: Disk, own: Loc, loc: Loc)
    requires KeepsPlaces(d, e, own) && loc != own
    ensures loc in d.meta <==> loc in e.meta
    ensures loc in d.meta ==> e.meta[loc] == d.meta[loc]
  {}

  lemma MetaTmpStays(d: Disk, e: Disk, own: Loc, x: Entry, m: Meta)
    requires KeepsPlaces(d, e, own) && x.loc != own && IsMetaTmp(d, x, m)
    ensures IsMetaTmp(e, x, m)
  {}

  lemma CoversStays(d: Disk, e: Disk, own: Loc, loc: Loc, keep: Name, todo: set<Name>)
    requires KeepsPlaces(d, e, own) && loc != own && Covers(d, loc, keep, todo)
    ensures Covers(e, loc, keep, todo)
  {}

  lemma ProducingUndisturbed(md5: Md5, d: Disk, e: Disk, i: Id, own: Loc, j: Id, op: Op)
    requires i != j && Keeps(d, e, i, own) && Producing(op) && op.loc != own && ProducingInv(md5, d, j, op)
    ensures ProducingInv(md5, e, j, op)
  {
    if op.PutStreaming? {
      StagingStays(d, e, i, j, op.loc, op.tmp, op.ino);
      WritingStays(d, e, i, j, op.ino, op.body);
    } else if op.PutBroken? {
      DrawStays(d, e, i, j, op.loc, op.tmp);
    } else if op.PutSynced? {
      StagingStays(d, e, i, j, op.loc, op.tmp, op.ino);
      FrozenStays(d, e, i, op.ino, op.body);
    } else if op.CopyHashing? {
      var ino :| OwnEntry(d, j, Entry(op.loc, op.name), ino) && Frozen(d, ino, op.seen.bytes);
      OwnEntryStays(d, e, i, j, own, Entry(op.loc, op.name), ino);
      FrozenStays(d, e, i, ino, op.seen.bytes);
    } else {
      OwnEntryStays(d, e, i, j, own, Entry(op.loc, op.name), op.ino);
      WritingStays(d, e, i, j, op.ino, Concat(op.parts)[..op.wrote]);
    }
  }

  lemma SwappingUndisturbed(md5: Md5, d: Disk, e: Disk, i: Id, own: Loc, j: Id, op: Op)
    requires i != j && Keeps(d, e, i, own) && Swapping(op) && op.loc != own && SwappingInv(md5, d, j, op)
    ensures SwappingInv(md5, e, j, op)
  {
    MetaStays(d, e, own, op.loc);
    if op.Ready? {
      InPlaceStays(md5, d, e, i, j, own, op.loc, op.goal, op.meta);
    } else if op.Staged? {
      InPlaceStays(md5, d, e, i, j, own, op.loc, op.goal, op.meta);
      DrawStays(d, e, i, j, op.loc, op.metaTmp);
      MetaTmpStays(d, e, own, Entry(op.loc, op.metaTmp), op.meta);
    } else if op.Undoing? {
      DrawStays(d, e, i, j, op.loc, op.name);
    } else {
      WasOutStays(md5, d, e, i, op.loc, op.goal, op.meta);
      if op.Sweeping? { CoversStays(d, e, own, op.loc, op.meta.data, op.todo); }
    }
  }

  lemma FreeUndisturbed(md5: Md5, d: Disk, e: Disk, i: Id, own: Loc, op: Op)
    requires Keeps(d, e, i, own) && FreeInv(md5, d, op)
    ensures FreeInv(md5, e, op)
  {
    if op.CopyKnown? || op.CopyLocked? || op.GetKnown? {
      KnownStays(md5, d, e, i, op.from, op.seen);
    } else if op.GetStreaming? {
      FrozenStays(d, e, i, op.ino, op.seen.bytes);
    } else if op.InstallDone? {
      WasOutStays(md5, d, e, i, op.loc, op.goal, op.meta);
    } else if op.Lost? && (op.was.Published? || op.was.Sweeping?) {
      WasOutStays(md5, d, e, i, op.was.loc, op.was.goal, op.was.meta);
    }
  }

  /** A request's own invariant survives the steps of request `i` in the directory `own`. */
  lemma Undisturbed(md5: Md5, d: Disk, e: Disk, i: Id, own: Loc, j: Id, op: Op)
    requires i != j && Keeps(d, e, i, own) && (Holds(op) ==> op.loc != own) && OpInv(md5, d, j, op)
    ensures OpInv(md5, e, j, op)
  {
    if Producing(op) {
      ProducingUndisturbed(md5, d, e, i, own, j, op);
    } else if Swapping(op) {
      SwappingUndisturbed(md5, d, e, i, own, j, op);
    } else if Deleting(op) {
      MetaStays(d, e, own, op.loc);
    } else {
      FreeUndisturbed(md5, d, e, i, own, op);
    }
  }
}
