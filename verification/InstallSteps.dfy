/** Every step keeps the invariant of the install protocol. */
module InstallSteps {
  import opened ByteStrings
  import opened Objects
  import opened Install
  import opened InstallSafety

  // ---- the disk operations ----

  lemma MetaOkStays(md5: Md5, d: Disk, e: Disk, loc: Loc)
    requires loc in d.meta && MetaOk(md5, d, loc)
    requires loc in e.meta && e.meta[loc] == d.meta[loc] && Entry(loc, d.meta[loc].data) in e.data
    requires var n := d.meta[loc].data; n in e.sealed && e.sealed[n] == d.sealed[n]
    ensures MetaOk(md5, e, loc)
  {}

  lemma EntryOkStays(d: Disk, e: Disk, i: Id, x: Entry)
    requires x in d.data && EntryOk(d, x) && KeepsNames(d, e, i) && KeepsFiles(d, e, i)
    requires x in e.data && e.data[x] == d.data[x] && e.data[x] in e.inodes
    requires x.name in e.sealed ==> x.name in d.sealed
    ensures EntryOk(e, x)
  {}

  /** Directories only lose entries that no metadata names; nothing is published. */
  lemma DirectoriesStay(md5: Md5, d: Disk, e: Disk, i: Id)
    requires DiskOk(md5, d) && NamesOk(e) && KeepsNames(d, e, i) && KeepsFiles(d, e, i) && e.sealed == d.sealed
    requires forall loc :: loc in e.meta ==> loc in d.meta && e.meta[loc] == d.meta[loc]
    requires forall loc :: loc in e.meta ==> Entry(loc, e.meta[loc].data) in e.data
    requires forall x :: x in e.data ==> x in d.data && e.data[x] == d.data[x]
    requires forall x :: x in d.inodes ==> x in e.inodes
    ensures DiskOk(md5, e)
  {
    forall loc | loc in e.meta
      ensures MetaOk(md5, e, loc)
    {
      MetaOkStays(md5, d, e, loc);
    }
    forall x | x in e.data
      ensures EntryOk(e, x)
    {
      EntryOkStays(d, e, i, x);
    }
  }

  lemma NamedFilesExist(md5: Md5, d: Disk)
    requires DiskOk(md5, d)
    ensures forall loc :: loc in d.meta ==> Entry(loc, d.meta[loc].data) in d.data
  {
    forall loc | loc in d.meta
      ensures Entry(loc, d.meta[loc].data) in d.data
    {
      assert MetaOk(md5, d, loc);
    }
  }

  lemma SameFilesKeep(d: Disk, e: Disk, i: Id)
    requires e.inodes == d.inodes && e.writer == d.writer
    ensures KeepsFiles(d, e, i)
  {}

  lemma SameNamesKeep(d: Disk, e: Disk, i: Id)
    requires NamesOk(d) && e.sealed == d.sealed && e.tmp == d.tmp && e.drawn == d.drawn
    requires forall x :: x in e.writer ==> x in e.inodes
    ensures KeepsNames(d, e, i) && NamesOk(e)
  {}

  lemma SamePlacesKeep(d: Disk, e: Disk, loc: Loc)
    requires e.meta == d.meta && e.data == d.data && e.metaTmp == d.metaTmp
    ensures KeepsPlaces(d, e, loc)
  {}

  lemma TmpCreatedKeeps(d: Disk, i: Id, loc: Loc, n: Name, ino: Ino)
    requires NamesOk(d) && Fresh(d, n) && ino !in d.inodes
    ensures Keeps(d, TmpCreated(d, i, loc, n, ino), i, loc) && NamesOk(TmpCreated(d, i, loc, n, ino))
  {
    var e := TmpCreated(d, i, loc, n, ino);
    SamePlacesKeep(d, e, loc);
    assert KeepsFiles(d, e, i);
  }

  lemma TmpCreatedOk(md5: Md5, d: Disk, i: Id, loc: Loc, n: Name, ino: Ino)
    requires DiskOk(md5, d) && Fresh(d, n) && ino !in d.inodes
    ensures DiskOk(md5, TmpCreated(d, i, loc, n, ino)) && Keeps(d, TmpCreated(d, i, loc, n, ino), i, loc)
  {
    var e := TmpCreated(d, i, loc, n, ino);
    TmpCreatedKeeps(d, i, loc, n, ino);
    NamedFilesExist(md5, d);
    DirectoriesStay(md5, d, e, i);
  }

  lemma AppendedOk(md5: Md5, d: Disk, i: Id, loc: Loc, ino: Ino, b: Bytes, c: Bytes)
    requires DiskOk(md5, d) && Writing(d, i, ino, b)
    ensures DiskOk(md5, Appended(d, ino, c)) && Keeps(d, Appended(d, ino, c), i, loc)
    ensures Writing(Appended(d, ino, c), i, ino, b + c)
  {
    var e := Appended(d, ino, c);
    SameNamesKeep(d, e, i);
    SamePlacesKeep(d, e, loc);
    assert KeepsFiles(d, e, i);
    NamedFilesExist(md5, d);
    DirectoriesStay(md5, d, e, i);
  }

  lemma ClosedOk(md5: Md5, d: Disk, i: Id, loc: Loc, ino: Ino, b: Bytes)
    requires DiskOk(md5, d) && Writing(d, i, ino, b)
    ensures DiskOk(md5, Closed(d, ino)) && Keeps(d, Closed(d, ino), i, loc)
    ensures Frozen(Closed(d, ino), ino, b)
  {
    var e := Closed(d, ino);
    SameNamesKeep(d, e, i);
    SamePlacesKeep(d, e, loc);
    assert KeepsFiles(d, e, i);
    NamedFilesExist(md5, d);
    DirectoriesStay(md5, d, e, i);
  }

  lemma TmpRemovedOk(md5: Md5, d: Disk, i: Id, loc: Loc, n: Name)
    requires DiskOk(md5, d)
    ensures DiskOk(md5, TmpRemoved(d, n)) && Keeps(d, TmpRemoved(d, n), i, loc)
  {
    var e := TmpRemoved(d, n);
    SameFilesKeep(d, e, i);
    SamePlacesKeep(d, e, loc);
    NamedFilesExist(md5, d);
    DirectoriesStay(md5, d, e, i);
  }

  lemma MetaWrittenOk(md5: Md5, d: Disk, i: Id, loc: Loc, n: Name, m: Meta)
    requires DiskOk(md5, d) && Fresh(d, n)
    ensures DiskOk(md5, MetaWritten(d, i, loc, n, m)) && Keeps(d, MetaWritten(d, i, loc, n, m), i, loc)
  {
    var e := MetaWritten(d, i, loc, n, m);
    SameFilesKeep(d, e, i);
    assert KeepsNames(d, e, i) && NamesOk(e);
    NamedFilesExist(md5, d);
    DirectoriesStay(md5, d, e, i);
  }

  /** A new data file under a new name, be its content new or shared. */
  ghost predicate Adds(d: Disk, e: Disk, i: Id, loc: Loc, n: Name, ino: Ino) {
    && Fresh(d, n) && e.drawn == d.drawn[n := Draw(i, loc)] && e.data == d.data[Entry(loc, n) := ino]
    && ino in e.inodes && e.meta == d.meta && e.metaTmp == d.metaTmp && e.sealed == d.sealed
    && (forall x :: x in d.inodes ==> SameFile(d, e, x))
    && (forall x :: x in d.inodes ==> (x in e.writer <==> x in d.writer))
    && (forall x :: x in d.inodes && x in d.writer ==> e.writer[x] == d.writer[x])
    && (forall x :: x in e.writer ==> x in e.inodes)
    && (forall t :: t in e.tmp ==> t in d.tmp && e.tmp[t] == d.tmp[t])
  }

  lemma AddsKeeps(d: Disk, e: Disk, i: Id, loc: Loc, n: Name, ino: Ino)
    requires NamesOk(d) && Adds(d, e, i, loc, n, ino)
    ensures Keeps(d, e, i, loc) && NamesOk(e)
  {}

  lemma AddsOk(md5: Md5, d: Disk, e: Disk, i: Id, loc: Loc, n: Name, ino: Ino)
    requires DiskOk(md5, d) && Adds(d, e, i, loc, n, ino)
    ensures DiskOk(md5, e) && Keeps(d, e, i, loc) && OwnEntry(e, i, Entry(loc, n), ino)
  {
    AddsKeeps(d, e, i, loc, n, ino);
    forall l | l in e.meta
      ensures MetaOk(md5, e, l)
    {
      MetaOkStays(md5, d, e, l);
    }
    forall x | x in e.data
      ensures EntryOk(e, x)
    {
      if x != Entry(loc, n) { EntryOkStays(d, e, i, x); }
    }
  }

  lemma RemovedKeeps(d: Disk, e: Disk, i: Id, loc: Loc)
    requires NamesOk(d) && e == d.(data := e.data, meta := e.meta) && KeepsPlaces(d, e, loc)
    ensures Keeps(d, e, i, loc) && NamesOk(e)
  {
    SameFilesKeep(d, e, i);
    SameNamesKeep(d, e, i);
  }

  lemma DataRemovedOk(md5: Md5, d: Disk, i: Id, x: Entry)
    requires DiskOk(md5, d) && (x.loc in d.meta ==> d.meta[x.loc].data != x.name)
    ensures DiskOk(md5, DataRemoved(d, x)) && Keeps(d, DataRemoved(d, x), i, x.loc)
  {
    var e := DataRemoved(d, x);
    RemovedKeeps(d, e, i, x.loc);
    NamedFilesExist(md5, d);
    DirectoriesStay(md5, d, e, i);
  }

  lemma MetaRemovedOk(md5: Md5, d: Disk, i: Id, loc: Loc)
    requires DiskOk(md5, d)
    ensures DiskOk(md5, MetaRemoved(d, loc)) && Keeps(d, MetaRemoved(d, loc), i, loc)
  {
    var e := MetaRemoved(d, loc);
    RemovedKeeps(d, e, i, loc);
    NamedFilesExist(md5, d);
    DirectoriesStay(md5, d, e, i);
  }

  /** Publishing seals exactly the bytes that the installer left in place. */
  lemma MetaRenamedShape(md5: Md5, d: Disk, i: Id, goal: Goal, t: Entry, m: Meta)
    requires IsMetaTmp(d, t, m) && InPlace(md5, d, i, t.loc, goal, m)
    ensures m.data !in d.sealed && DrawnBy(d, m.data, i, t.loc) && Entry(t.loc, m.data) in d.data
    ensures var e := MetaRenamed(d, t);
      && m.data in e.sealed && e.sealed == d.sealed[m.data := e.sealed[m.data]]
      && Frozen(d, d.data[Entry(t.loc, m.data)], e.sealed[m.data])
      && Meets(md5, t.loc, goal, VersionOf(m, e.sealed[m.data]))
  {
    var ino, b :| OwnEntry(d, i, Entry(t.loc, m.data), ino) && Frozen(d, ino, b)
                  && Meets(md5, t.loc, goal, VersionOf(m, b));
  }

  lemma MetaRenamedKeeps(d: Disk, i: Id, t: Entry, m: Meta)
    requires NamesOk(d) && IsMetaTmp(d, t, m) && m.data !in d.sealed && DrawnBy(d, m.data, i, t.loc)
    ensures Keeps(d, MetaRenamed(d, t), i, t.loc) && NamesOk(MetaRenamed(d, t))
  {}

  lemma MetaRenamedOk(md5: Md5, d: Disk, i: Id, goal: Goal, t: Entry, m: Meta)
    requires DiskOk(md5, d) && IsMetaTmp(d, t, m) && InPlace(md5, d, i, t.loc, goal, m)
    ensures DiskOk(md5, MetaRenamed(d, t)) && Keeps(d, MetaRenamed(d, t), i, t.loc)
    ensures IsMeta(MetaRenamed(d, t), t.loc, m) && WasOut(md5, MetaRenamed(d, t), t.loc, goal, m)
  {
    var e := MetaRenamed(d, t);
    MetaRenamedShape(md5, d, i, goal, t, m);
    MetaRenamedKeeps(d, i, t, m);
    forall l | l in e.meta
      ensures MetaOk(md5, e, l)
    {
      if l != t.loc { MetaOkStays(md5, d, e, l); }
    }
    forall x | x in e.data
      ensures EntryOk(e, x)
    {
      assert EntryOk(d, x);
      if x.name != m.data { EntryOkStays(d, e, i, x); }
    }
  }

  // ---- one request moves, and everything else holds still ----

  lemma LocksFollow(s: Sys, t: Sys, i: Id, next: Op)
    requires LocksOk(s) && i in s.ops && next.loc == s.ops[i].loc
    requires Holds(next) ==> Holds(s.ops[i]) || next.loc !in s.locks
    requires t.ops == s.ops[i := next] && t.locks == NextLocks(s.locks, i, next)
    ensures LocksOk(t)
  {
    forall loc | loc in t.locks
      ensures Guards(t, t.locks[loc], loc)
    {
      if loc in s.locks { assert Guards(s, s.locks[loc], loc); }
    }
    forall j | j in t.ops && Holds(t.ops[j])
      ensures HasLock(t.locks, j, t.ops[j].loc)
    {
      if j != i { assert HasLock(s.locks, j, s.ops[j].loc); }
    }
  }

  /** Request `i` moves on to `next`, having left disk `e`. */
  function Moved(s: Sys, i: Id, next: Op, e: Disk): Sys {
    Sys(e, NextLocks(s.locks, i, next), s.ops[i := next])
  }

  /** A step that changes no file. */
  lemma QuietStep(md5: Md5, s: Sys, i: Id, next: Op)
    requires Inv(md5, s) && i in s.ops && next.loc == s.ops[i].loc && OpInv(md5, s.disk, i, next)
    requires Holds(next) ==> Holds(s.ops[i]) || next.loc !in s.locks
    ensures Inv(md5, Moved(s, i, next, s.disk))
  {
    LocksFollow(s, Moved(s, i, next, s.disk), i, next);
  }

  lemma OtherHolders(s: Sys, i: Id, j: Id)
    requires LocksOk(s) && i in s.ops && Holds(s.ops[i]) && j in s.ops && Holds(s.ops[j]) && i != j
    ensures s.ops[i].loc != s.ops[j].loc
  {
    assert HasLock(s.locks, i, s.ops[i].loc) && HasLock(s.locks, j, s.ops[j].loc);
  }

  /** A step of a lock holder in the directory of its object. */
  lemma WorkStep(md5: Md5, s: Sys, i: Id, next: Op, e: Disk)
    requires Inv(md5, s) && i in s.ops && Holds(s.ops[i]) && next.loc == s.ops[i].loc
    requires DiskOk(md5, e) && Keeps(s.disk, e, i, next.loc) && OpInv(md5, e, i, next)
    ensures Inv(md5, Moved(s, i, next, e))
  {
    var t := Moved(s, i, next, e);
    LocksFollow(s, t, i, next);
    forall j | j in t.ops
      ensures OpInv(md5, e, j, t.ops[j])
    {
      if j != i {
        if Holds(s.ops[j]) { OtherHolders(s, i, j); }
        Undisturbed(md5, s.disk, e, i, next.loc, j, s.ops[j]);
      }
    }
  }
}
