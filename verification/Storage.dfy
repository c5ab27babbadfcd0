/** The storage engine's methods, written out as the calls they make. Each call is one step of the install
    protocol; at every `Await` any number of other requests take any steps. */
module Storage {
  import opened ByteStrings
  import opened Objects
  import opened Bodies
  import opened Install
  import opened InstallSafety
  import opened InstallInvariant
  import opened InstallRuns
  import opened InstallRequests
  import opened InstallProgress

  /** Where a call can fail. Link is not fatal: the bytes are then copied. A write that fails can be any of the writes
      to a file, or the flush and sync behind them. */
  datatype Point = Read | Create | Write | Place | Link | Copy | Hash | Stage | Publish | Open | Stream

  /** What the environment decides about a request: whether its lock comes while its client waits, whether the
      listing of a directory gets to its end, and which of its calls fail. */
  datatype Env = Env(lock: bool, lists: bool, fails: set<Point>) {
    /** No call fails at either of two points. */
    predicate Spares(a: Point, b: Point) {
      a !in fails && b !in fails
    }

    predicate LinkOrCopyWorks() {
      Link !in fails || Copy !in fails
    }
  }

  /** The metadata of `loc` after the first `k` acts. */
  function MetaAt(md5: Md5, acts: seq<Act>, k: nat, loc: Loc): Option<Meta>
    requires k <= |acts|
  {
    match Run(md5, acts[..k])
    case Some(s) => if loc in s.disk.meta then Some(s.disk.meta[loc]) else None
    case None => None
  }

  lemma MetaAtStays(md5: Md5, a: seq<Act>, b: seq<Act>, k: nat, loc: Loc)
    requires k <= |a| && a <= b
    ensures MetaAt(md5, b, k, loc) == MetaAt(md5, a, k, loc)
  {
    assert b[..k] == a[..k];
  }

  lemma MetaNow(md5: Md5, acts: seq<Act>, s: Sys, loc: Loc)
    requires Run(md5, acts) == Some(s)
    ensures MetaAt(md5, acts, |acts|, loc) == if loc in s.disk.meta then Some(s.disk.meta[loc]) else None
  {
    assert acts[..|acts|] == acts;
  }

  /** From act `j` to act `k` the metadata of `loc` was not there, or not the same all the time. */
  predicate Missing(md5: Md5, acts: seq<Act>, j: nat, k: nat, loc: Loc) {
    j <= k <= |acts| && (MetaAt(md5, acts, j, loc).None? || MetaAt(md5, acts, j, loc) != MetaAt(md5, acts, k, loc))
  }

  lemma NamedFileIsThere(md5: Md5, d: Disk, loc: Loc, m: Meta)
    requires DiskOk(md5, d) && IsMeta(d, loc, m)
    ensures Entry(loc, m.data) in d.data && Content(d, loc, m.data).Some?
  {
    assert MetaOk(md5, d, loc);
    assert EntryOk(d, Entry(loc, m.data));
  }

  /** A data file is gone only where the metadata that names it is no longer there. */
  lemma GoneIsReplaced(md5: Md5, d: Disk, loc: Loc, m: Meta)
    requires DiskOk(md5, d) && (Entry(loc, m.data) !in d.data || Content(d, loc, m.data).None?)
    ensures !IsMeta(d, loc, m)
  {
    if IsMeta(d, loc, m) { NamedFileIsThere(md5, d, loc, m); }
  }

  /** At act `k`, request `i` unlinked the metadata of `loc`, which named the data file `name`. */
  predicate UnlinkedAt(md5: Md5, acts: seq<Act>, k: nat, i: Id, loc: Loc, name: Name) {
    && k < |acts| && acts[k] == Take(i, DelMeta)
    && MetaAt(md5, acts, k, loc).Some? && MetaAt(md5, acts, k, loc).value.data == name
  }

  lemma UnlinkedStays(md5: Md5, a: seq<Act>, b: seq<Act>, k: nat, i: Id, loc: Loc, name: Name)
    requires UnlinkedAt(md5, a, k, i, loc, name) && a <= b
    ensures UnlinkedAt(md5, b, k, i, loc, name)
  {
    MetaAtStays(md5, a, b, k, loc);
  }

  lemma MetaGoes(md5: Md5, s: Sys, i: Id, t: Sys)
    requires Enabled(s, Take(i, DelMeta)) && t == Do(md5, s, Take(i, DelMeta))
    ensures s.ops[i].DelKnown? && i in t.ops && s.ops[i].loc !in t.disk.meta
    ensures t.ops[i] ==
      match s.ops[i].data
      case Some(name) => DelGone(s.ops[i].loc, name)
      case None => DelDone(s.ops[i].loc, true)
  {}

  lemma DataFileGoes(md5: Md5, s: Sys, i: Id, t: Sys)
    requires Enabled(s, Take(i, DelData)) && t == Do(md5, s, Take(i, DelData))
    ensures s.ops[i].DelGone? && i in t.ops && t.ops[i] == DelDone(s.ops[i].loc, true)
    ensures Entry(s.ops[i].loc, s.ops[i].name) !in t.disk.data
  {}

  /** The rename of the staging file takes it away and puts the very file in place. */
  lemma StagingFileMoves(md5: Md5, s: Sys, i: Id, n: Name, t: Sys)
    requires Enabled(s, Take(i, PutRename(n))) && t == Do(md5, s, Take(i, PutRename(n)))
    ensures var op := s.ops[i];
      && op.PutSynced? && op.tmp !in t.disk.tmp && Entry(op.loc, n) in t.disk.data
      && t.disk.data[Entry(op.loc, n)] == s.disk.tmp[op.tmp]
  {}

  /** The rename of the new metadata takes its temporary file away. */
  lemma MetaFileMoves(md5: Md5, s: Sys, i: Id, t: Sys)
    requires Enabled(s, Take(i, PublishMeta)) && t == Do(md5, s, Take(i, PublishMeta))
    ensures var op := s.ops[i];
      && op.Staged? && Entry(op.loc, op.metaTmp) !in t.disk.metaTmp
      && IsMeta(t.disk, op.loc, s.disk.metaTmp[Entry(op.loc, op.metaTmp)])
  {}

  /** A crash and housekeeping: the one loses every request and lock and no file, the other removes one staging file
      and nothing else. */
  lemma CrashKeepsFiles(md5: Md5, s: Sys, n: Name)
    ensures var t := Do(md5, s, Crash);
      t.disk == s.disk && t.locks == map[] && t.ops.Keys == s.ops.Keys && forall i :: i in t.ops ==> Ended(t.ops[i])
    ensures n in s.disk.tmp ==>
      var t := Do(md5, s, CleanTmp(n));
      t.disk.tmp == s.disk.tmp - {n} && t.disk.data == s.disk.data && t.disk.meta == s.disk.meta && t.ops == s.ops
  {}

  /** A request that has a staging file for its body, which it has not moved yet. */
  predicate HasStaging(op: Op) {
    op.PutStreaming? || op.PutSynced?
  }

  lemma PutSparesStaging(md5: Md5, d: Disk, locks: map<Loc, Id>, j: Id, other: Op, c: Call, i: Id, loc: Loc, n: Name)
    requires IsPutCall(c) && CanTake(d, locks, other, c) && OpInv(md5, d, j, other)
    requires i != j && DrawnBy(d, n, i, loc) && n in d.tmp
    ensures n in PutDisk(d, locks, j, other, c).tmp
  {
    if c.PutRemove? { assert DrawnBy(d, other.tmp, j, other.loc); }
    if c.PutRename? { assert DrawnBy(d, other.tmp, j, other.loc); }
  }

  lemma CopySparesStaging(d: Disk, locks: map<Loc, Id>, j: Id, other: Op, c: Call)
    requires IsCopyCall(c) && CanTake(d, locks, other, c)
    ensures CopyDisk(d, locks, j, other, c).tmp == d.tmp
  {}

  lemma JoinSparesStaging(d: Disk, locks: map<Loc, Id>, j: Id, other: Op, c: Call)
    requires IsJoinCall(c) && CanTake(d, locks, other, c)
    ensures JoinDisk(d, locks, j, other, c).tmp == d.tmp
  {}

  lemma SwapSparesStaging(d: Disk, locks: map<Loc, Id>, j: Id, other: Op, c: Call)
    requires IsSwapCall(c) && CanTake(d, locks, other, c)
    ensures SwapDisk(d, locks, j, other, c).tmp == d.tmp
  {}

  lemma DelSparesStaging(d: Disk, locks: map<Loc, Id>, other: Op, c: Call)
    requires IsDelCall(c) && CanTake(d, locks, other, c)
    ensures DelDisk(d, locks, other, c).tmp == d.tmp
  {}

  lemma CallSparesStaging(md5: Md5, d: Disk, locks: map<Loc, Id>, j: Id, other: Op, c: Call, i: Id, loc: Loc, n: Name)
    requires CanTake(d, locks, other, c) && OpInv(md5, d, j, other)
    requires i != j && DrawnBy(d, n, i, loc) && n in d.tmp
    ensures n in NextDisk(d, locks, j, other, c).tmp
  {
    if IsPutCall(c) {
      PutSparesStaging(md5, d, locks, j, other, c, i, loc, n);
    } else if IsCopyCall(c) {
      CopySparesStaging(d, locks, j, other, c);
    } else if IsJoinCall(c) {
      JoinSparesStaging(d, locks, j, other, c);
    } else if IsSwapCall(c) {
      SwapSparesStaging(d, locks, j, other, c);
    } else if IsDelCall(c) {
      DelSparesStaging(d, locks, other, c);
    }
  }

  /** Only housekeeping and the request itself take a staging file away. */
  lemma OthersSpareStaging(md5: Md5, acts: seq<Act>, s: Sys, a: Act, i: Id)
    requires Run(md5, acts) == Some(s) && Enabled(s, a) && i in s.ops && HasStaging(s.ops[i])
    requires !a.Crash? && !(a.Take? && a.i == i) && a != CleanTmp(s.ops[i].tmp) && s.ops[i].tmp in s.disk.tmp
    ensures s.ops[i].tmp in Do(md5, s, a).disk.tmp
  {
    Safety(md5, acts);
    assert OpInv(md5, s.disk, i, s.ops[i]);
    if a.Take? {
      assert OpInv(md5, s.disk, a.i, s.ops[a.i]);
      CallSparesStaging(md5, s.disk, s.locks, a.i, s.ops[a.i], a.call, i, s.ops[i].loc, s.ops[i].tmp);
    }
  }

  lemma LockIsHeld(md5: Md5, acts: seq<Act>, s: Sys, loc: Loc)
    requires Run(md5, acts) == Some(s) && loc in s.locks
    ensures Guards(s, s.locks[loc], loc)
  {
    Safety(md5, acts);
  }

  lemma HoldersAreBusy(op: Op)
    requires Holds(op)
    ensures !Waiting(op) && !Ended(op)
  {}

  /** A request that waits for its lock does not hold it, and whoever does can be dropped. */
  lemma HolderCanGo(md5: Md5, acts: seq<Act>, s: Sys, i: Id)
    requires Run(md5, acts) == Some(s) && i in s.ops && Waiting(s.ops[i]) && s.ops[i].loc in s.locks
    ensures var j := s.locks[s.ops[i].loc]; j != i && Enabled(s, Take(j, Cancel))
  {
    LockIsHeld(md5, acts, s, s.ops[i].loc);
    HoldersAreBusy(s.ops[s.locks[s.ops[i].loc]]);
  }

  lemma DroppedFrees(md5: Md5, s: Sys, loc: Loc, t: Sys)
    requires loc in s.locks && Enabled(s, Take(s.locks[loc], Cancel)) && t == Do(md5, s, Take(s.locks[loc], Cancel))
    ensures loc !in t.locks
  {}

  lemma UploadStarts(md5: Md5, s: Sys, i: Id, n: Name, ino: Ino, t: Sys)
    requires Enabled(s, Take(i, PutCreate(n, ino))) && t == Do(md5, s, Take(i, PutCreate(n, ino)))
    ensures s.ops[i].PutLocked? && i in t.ops && t.ops[i] == PutStreaming(s.ops[i].loc, s.ops[i].attrs, n, ino, [])
    ensures n in t.disk.tmp
  {}

  lemma UploadGoesOn(md5: Md5, s: Sys, i: Id, c: Call, t: Sys)
    requires (c.PutChunk? || c.PutSync?) && Enabled(s, Take(i, c)) && t == Do(md5, s, Take(i, c))
    ensures s.ops[i].PutStreaming? && i in t.ops && t.ops[i] == Next(md5, s.disk, s.locks, s.ops[i], c)
    ensures t.ops[i].tmp == s.ops[i].tmp && t.disk.tmp == s.disk.tmp
  {}

  lemma RefusedMade(d: Disk, i: Id, op: Op)
    requires op.Failed? || (op.Lost? && Waiting(op.was))
    ensures Made(d, i, op) == []
  {}

  lemma UndoShape(md5: Md5, s: Sys, i: Id, t: Sys)
    requires Enabled(s, Take(i, UndoData)) && t == Do(md5, s, Take(i, UndoData))
    ensures s.ops[i].Undoing? && i in t.ops && t.ops[i].Failed?
    ensures Entry(s.ops[i].loc, s.ops[i].name) !in t.disk.data
  {}

  lemma RemoveShape(md5: Md5, s: Sys, i: Id, t: Sys)
    requires Enabled(s, Take(i, PutRemove)) && t == Do(md5, s, Take(i, PutRemove))
    ensures s.ops[i].PutBroken? && i in t.ops && t.ops[i].Failed? && s.ops[i].tmp !in t.disk.tmp
  {}

  class Storage {
    const md5: Md5
    var sys: Sys
    ghost var acts: seq<Act>

    /** The state was reached by the recorded acts. */
    ghost predicate Valid()
      reads this
    {
      Run(md5, acts) == Some(sys)
    }

    constructor (md5: Md5)
      ensures Valid() && this.md5 == md5 && acts == []
    {
      this.md5, sys, acts := md5, EMPTY, [];
    }

    method Perform(a: Act)
      requires Valid() && Enabled(sys, a)
      modifies this
      ensures Valid() && acts == old(acts) + [a] && sys == Do(md5, old(sys), a)
    {
      assert (acts + [a])[..|acts|] == acts;
      sys, acts := Do(md5, sys, a), acts + [a];
    }

    /** One call of request `i`. */
    method Step(i: Id, c: Call)
      requires Valid() && Enabled(sys, Take(i, c))
      modifies this
      ensures Valid() && old(acts) <= acts && i in sys.ops
      ensures sys.ops[i] == Next(md5, old(sys.disk), old(sys.locks), old(sys.ops[i]), c)
    {
      Perform(Take(i, c));
    }

    /** Whatever the others do while request `i` waits for a call to return. */
    method Await(i: Id)
      requires Valid() && i in sys.ops
      modifies this
      ensures Valid() && old(acts) <= acts && i in sys.ops && sys.ops[i] == old(sys.ops[i])
    {
      var n: nat :| true;
      for k := 0 to n
        invariant Valid() && old(acts) <= acts && i in sys.ops && sys.ops[i] == old(sys.ops[i])
      {
        var a: Act := *;
        if Enabled(sys, a) && !a.Crash? && !(a.Take? && a.i == i) {
          Perform(a);
        }
      }
    }

    /** The same, where housekeeping leaves the staging file of the request alone if `spare` says so. */
    method AwaitSparing(i: Id, spare: bool)
      requires Valid() && i in sys.ops && HasStaging(sys.ops[i])
      modifies this
      ensures Valid() && old(acts) <= acts && i in sys.ops && sys.ops[i] == old(sys.ops[i])
      ensures spare && old(StagingThere(i)) ==> StagingThere(i)
    {
      var n: nat :| true;
      for k := 0 to n
        invariant Valid() && old(acts) <= acts && i in sys.ops && sys.ops[i] == old(sys.ops[i])
        invariant spare && old(StagingThere(i)) ==> StagingThere(i)
      {
        var a: Act := *;
        if Enabled(sys, a) && !a.Crash? && !(a.Take? && a.i == i) && !(spare && a == CleanTmp(sys.ops[i].tmp)) {
          if spare && StagingThere(i) { OthersSpareStaging(md5, acts, sys, a, i); }
          Perform(a);
        }
      }
    }

    /** The staging file of request `i` is in its directory. */
    predicate StagingThere(i: Id)
      reads this
    {
      i in sys.ops && HasStaging(sys.ops[i]) && sys.ops[i].tmp in sys.disk.tmp
    }

    method NewUuid() returns (n: Name)
      ensures Fresh(sys.disk, n)
    {
      ghost var bound := UnusedExists(sys.disk.drawn.Keys);
      assert bound !in sys.disk.drawn;
      n :| n !in sys.disk.drawn;
    }

    method NewInode() returns (ino: Ino)
      ensures ino !in sys.disk.inodes
    {
      ghost var bound := UnusedExists(sys.disk.inodes.Keys);
      assert bound !in sys.disk.inodes;
      ino :| ino !in sys.disk.inodes;
    }

    /** Others take any steps until the lock is free. In the end its holder goes, if it is still there. */
    method AwaitLock(i: Id)
      requires Valid() && i in sys.ops && Waiting(sys.ops[i])
      modifies this
      ensures Valid() && old(acts) <= acts && i in sys.ops && sys.ops[i] == old(sys.ops[i])
      ensures sys.ops[i].loc !in sys.locks
    {
      Await(i);
      if sys.ops[i].loc in sys.locks {
        ghost var s := sys;
        HolderCanGo(md5, acts, sys, i);
        Perform(Take(sys.locks[sys.ops[i].loc], Cancel));
        DroppedFrees(md5, s, s.ops[i].loc, sys);
      }
    }

    /** `object_lock`: a caller whose lock does not come is one that is dropped while waiting. */
    method ObjectLock(i: Id, env: Env) returns (ok: bool)
      requires Valid() && i in sys.ops && Waiting(sys.ops[i])
      modifies this
      ensures Valid() && old(acts) <= acts && i in sys.ops && ok == env.lock
      ensures ok ==> sys.ops[i] == Locked(old(sys.ops[i]))
      ensures !ok ==> sys.ops[i] == Lost(old(sys.ops[i].loc), old(sys.ops[i]))
    {
      ok := env.lock;
      if ok {
        AwaitLock(i);
        Step(i, Acquire);
      } else {
        Await(i);
        Step(i, Cancel);
      }
    }

    /** The directory has been listed, and everything else in it removed. */
    method EndSweep(i: Id)
      requires Valid() && i in sys.ops && sys.ops[i].Sweeping? && sys.ops[i].todo <= {sys.ops[i].meta.data}
      modifies this
      ensures Valid() && old(acts) <= acts && i in sys.ops
      ensures sys.ops[i] == InstallDone(old(sys.ops[i].loc), old(sys.ops[i].goal), old(sys.ops[i].meta), true)
      ensures HoldsOneFile(old(sys.ops[i].loc), old(sys.ops[i].meta))
    {
      ghost var before, s := acts, sys;
      Perform(Take(i, GcEnd));
      GcEndShape(md5, s, i, sys);
      SweepLeavesOneFile(md5, before, i, s, sys);
    }

    /** The metadata of `loc` is `m`, and its directory holds no data file but the one that `m` names. */
    ghost predicate HoldsOneFile(loc: Loc, m: Meta)
      reads this
    {
      IsMeta(sys.disk, loc, m) && Names(sys.disk, loc) == {m.data}
    }

    method UnlinkListed(i: Id, n: Name)
      requires Valid() && i in sys.ops && sys.ops[i].Sweeping? && n in sys.ops[i].todo && n != sys.ops[i].meta.data
      modifies this
      ensures Valid() && old(acts) <= acts
      ensures IsSweeping(i, old(sys.ops[i])) && sys.ops[i].todo == old(sys.ops[i].todo) - {n}
    {
      Step(i, GcUnlink(n));
    }

    /** The files of the listing go one by one, unless the listing breaks off. */
    method RemoveListed(i: Id, env: Env) returns (all: bool)
      requires Valid() && i in sys.ops && sys.ops[i].Sweeping?
      modifies this
      ensures Valid() && old(acts) <= acts && all == env.lists
      ensures all ==> IsSweeping(i, old(sys.ops[i])) && sys.ops[i].todo <= {sys.ops[i].meta.data}
      ensures !all ==> Installed(i, old(sys.ops[i].loc), old(sys.ops[i].goal)) && !sys.ops[i].swept
    {
      var keep, todo := sys.ops[i].meta.data, sys.ops[i].todo;
      while !(todo <= {keep})
        invariant Valid() && old(acts) <= acts
        invariant IsSweeping(i, old(sys.ops[i])) && sys.ops[i].todo == todo
        decreases |todo|
      {
        Await(i);
        var breaks: bool := *;
        if breaks && !env.lists {
          Step(i, GcSkip);
          return false;
        }
        var n :| n in todo && n != keep;
        UnlinkListed(i, n);
        todo := todo - {n};
      }
      all := env.lists;
      if !all { Step(i, GcSkip); }
    }

    /** Request `i`, which was collecting, still is. */
    predicate IsSweeping(i: Id, was: Op)
      requires was.Sweeping?
      reads this
    {
      && i in sys.ops && sys.ops[i].Sweeping?
      && sys.ops[i].loc == was.loc && sys.ops[i].goal == was.goal && sys.ops[i].meta == was.meta
    }

    /** `gc_object_dir`, best effort: when it gets to the end of the directory, one data file is left. */
    method GcObjectDir(i: Id, env: Env)
      requires Valid() && i in sys.ops && sys.ops[i].Published?
      modifies this
      ensures Valid() && old(acts) <= acts && Installed(i, old(sys.ops[i].loc), old(sys.ops[i].goal))
      ensures sys.ops[i].swept == env.lists
      ensures env.lists ==> HoldsOneFile(old(sys.ops[i].loc), old(sys.ops[i].meta))
    {
      Await(i);
      var breaks: bool := *;
      if breaks && !env.lists {
        Step(i, GcSkip);
        return;
      }
      Step(i, GcList);
      var all := RemoveListed(i, env);
      if all { EndSweep(i); }
    }

    predicate Installed(i: Id, loc: Loc, goal: Goal)
      reads this
    {
      i in sys.ops && sys.ops[i].InstallDone? && sys.ops[i].loc == loc && sys.ops[i].goal == goal
    }

    /** The data file of a failed install goes again. */
    method DropData(i: Id)
      requires Valid() && i in sys.ops && sys.ops[i].Undoing?
      modifies this
      ensures Valid() && old(acts) <= acts && i in sys.ops && sys.ops[i].Failed?
      ensures Entry(old(sys.ops[i].loc), old(sys.ops[i].name)) !in sys.disk.data
    {
      Await(i);
      ghost var s := sys;
      Perform(Take(i, UndoData));
      UndoShape(md5, s, i, sys);
    }

    lemma StagedFile(i: Id)
      requires Valid() && i in sys.ops && sys.ops[i].Staged?
      ensures Entry(sys.ops[i].loc, sys.ops[i].metaTmp) in sys.disk.metaTmp
    {
      Safety(md5, acts);
      assert OpInv(md5, sys.disk, i, sys.ops[i]);
    }

    /** The rename over `meta.json`. */
    method PublishNew(i: Id, env: Env) returns (ok: bool)
      requires Valid() && i in sys.ops && sys.ops[i].Staged?
      modifies this
      ensures Valid() && old(acts) <= acts && i in sys.ops && ok == (Publish !in env.fails)
      ensures sys.ops[i] ==
        var op := old(sys.ops[i]);
        if ok then Published(op.loc, op.goal, op.meta) else Undoing(op.loc, op.meta.data)
    {
      Await(i);
      ok := Publish !in env.fails;
      if ok {
        StagedFile(i);
        Step(i, PublishMeta);
      } else {
        Step(i, PublishFails);
      }
    }

    /** `write_json_atomic` over `meta.json`: a temporary file, then a rename. */
    method WriteMeta(i: Id, env: Env) returns (ok: bool)
      requires Valid() && i in sys.ops && sys.ops[i].Ready?
      modifies this
      ensures Valid() && old(acts) <= acts && i in sys.ops && ok == env.Spares(Stage, Publish)
      ensures sys.ops[i] ==
        var op := old(sys.ops[i]);
        if ok then Published(op.loc, op.goal, op.meta) else Undoing(op.loc, op.meta.data)
    {
      Await(i);
      if Stage in env.fails {
        Step(i, StageFails);
        return false;
      }
      var n := NewUuid();
      Step(i, StageMeta(n));
      ok := PublishNew(i, env);
    }

    /** What ends every install, once its data file is in place. */
    method InstallMeta(i: Id, env: Env) returns (ok: bool)
      requires Valid() && i in sys.ops && sys.ops[i].Ready?
      modifies this
      ensures Valid() && old(acts) <= acts && i in sys.ops && ok == (env.Spares(Stage, Publish))
      ensures if ok then Installed(i, old(sys.ops[i].loc), old(sys.ops[i].goal)) else sys.ops[i].Failed?
      ensures ok && env.lists ==> OneFileLeft(old(sys.ops[i].loc))
      ensures !ok ==> Entry(old(sys.ops[i].loc), old(sys.ops[i].meta.data)) !in sys.disk.data
    {
      ok := WriteMeta(i, env);
      if ok { GcObjectDir(i, env); } else { DropData(i); }
    }

    /** The directory of `loc` holds one data file, the one that its metadata names. */
    predicate OneFileLeft(loc: Loc)
      reads this
    {
      loc in sys.disk.meta && Names(sys.disk, loc) == {sys.disk.meta[loc].data}
    }

    predicate IsReady(i: Id, loc: Loc, goal: Goal)
      reads this
    {
      i in sys.ops && sys.ops[i].Ready? && sys.ops[i].loc == loc && sys.ops[i].goal == goal
    }

    // ---- put_object ----

    lemma StreamingFile(i: Id)
      requires Valid() && i in sys.ops && sys.ops[i].PutStreaming?
      ensures sys.ops[i].ino in sys.disk.inodes
    {
      Safety(md5, acts);
      assert OpInv(md5, sys.disk, i, sys.ops[i]);
    }

    /** A broken upload removes its staging file. */
    method DropUpload(i: Id)
      requires Valid() && i in sys.ops && sys.ops[i].PutStreaming?
      modifies this
      ensures Valid() && old(acts) <= acts && i in sys.ops && sys.ops[i].Failed?
      ensures old(sys.ops[i].tmp) !in sys.disk.tmp
    {
      Step(i, PutBreak);
      Await(i);
      ghost var s := sys;
      Perform(Take(i, PutRemove));
      RemoveShape(md5, s, i, sys);
    }

    /** The next piece goes to the staging file, or the file is synced and closed. */
    method UploadStep(i: Id, c: Call)
      requires Valid() && (c.PutChunk? || c.PutSync?) && Enabled(sys, Take(i, c))
      modifies this
      ensures Valid() && old(acts) <= acts && i in sys.ops
      ensures sys.ops[i] == Next(md5, old(sys.disk), old(sys.locks), old(sys.ops[i]), c)
      ensures old(StagingThere(i)) ==> StagingThere(i)
    {
      ghost var s := sys;
      Perform(Take(i, c));
      UploadGoesOn(md5, s, i, c, sys);
    }

    /** Request `i`, which was streaming, has received `body` by now. */
    predicate IsStreaming(i: Id, was: Op, body: Bytes)
      requires was.PutStreaming?
      reads this
    {
      i in sys.ops && sys.ops[i] == PutStreaming(was.loc, was.attrs, was.tmp, was.ino, body)
    }

    /** The next piece of the body goes to the staging file. */
    method AppendChunk(i: Id, chunk: Bytes)
      requires Valid() && i in sys.ops && sys.ops[i].PutStreaming? && |sys.ops[i].body| + |chunk| <= MAX_OBJECT_SIZE
      modifies this
      ensures Valid() && old(acts) <= acts && IsStreaming(i, old(sys.ops[i]), old(sys.ops[i].body) + chunk)
      ensures old(StagingThere(i)) ==> StagingThere(i)
    {
      StreamingFile(i);
      UploadStep(i, PutChunk(chunk));
    }

    /** The receiving loop: counts, and writes to the staging file. Writes that fail may show only at the flush
        behind the loop. */
    method ReceiveBody(i: Id, body: seq<Piece>, env: Env) returns (ok: bool)
      requires Valid() && i in sys.ops && sys.ops[i].PutStreaming? && sys.ops[i].body == [] && StagingThere(i)
      modifies this
      ensures Valid() && old(acts) <= acts && i in sys.ops
      ensures ok ==> Intact(body, |body|) && IsStreaming(i, old(sys.ops[i]), BodyBytes(body))
      ensures ok && Place !in env.fails ==> StagingThere(i)
      ensures !ok ==> sys.ops[i].Failed? && old(sys.ops[i].tmp) !in sys.disk.tmp
      ensures !ok ==> !Intact(body, |body|) || Write in env.fails
    {
      var size := 0;
      for k := 0 to |body|
        invariant Valid() && old(acts) <= acts && i in sys.ops
        invariant Intact(body, k) && IsStreaming(i, old(sys.ops[i]), BodyBytes(body[..k]))
        invariant size == |BodyBytes(body[..k])|
        invariant Place !in env.fails ==> StagingThere(i)
      {
        AwaitSparing(i, Place !in env.fails);
        BodyStep(body, k);
        match body[k] {
          case Broken(_) =>
            DropUpload(i);
            return false;
          case Chunk(chunk) =>
            size := size + |chunk|;
            var failed: bool := *;
            if size > MAX_OBJECT_SIZE || (failed && Write in env.fails) {
              if Intact(body, |body|) { IntactPrefix(body, k + 1, |body|); }
              DropUpload(i);
              return false;
            }
            AppendChunk(i, chunk);
        }
      }
      assert body[..|body|] == body;
      ok := true;
    }

    /** The rename to the data file's unique name. */
    method RenameUpload(i: Id, env: Env) returns (ok: bool)
      requires Valid() && i in sys.ops && sys.ops[i].PutSynced?
      requires Place !in env.fails ==> StagingThere(i)
      modifies this
      ensures Valid() && old(acts) <= acts && i in sys.ops && ok == (Place !in env.fails)
      ensures ok ==> IsReady(i, old(sys.ops[i].loc), Upload(old(sys.ops[i].body), old(sys.ops[i].attrs)))
      ensures !ok ==> sys.ops[i].Failed?
    {
      AwaitSparing(i, Place !in env.fails);
      ok := Place !in env.fails;
      if ok {
        var n := NewUuid();
        Step(i, PutRename(n));
      } else {
        Step(i, Fail);
      }
    }

    /** From the staging file to the data file: flush, sync and rename. */
    method PlaceData(i: Id, env: Env) returns (ok: bool)
      requires Valid() && i in sys.ops && sys.ops[i].PutStreaming?
      requires Place !in env.fails ==> StagingThere(i)
      modifies this
      ensures Valid() && old(acts) <= acts && i in sys.ops && ok == env.Spares(Write, Place)
      ensures ok ==> IsReady(i, old(sys.ops[i].loc), Upload(old(sys.ops[i].body), old(sys.ops[i].attrs)))
      ensures !ok ==> sys.ops[i].Failed?
    {
      AwaitSparing(i, Place !in env.fails);
      if Write in env.fails {
        Step(i, Fail);
        return false;
      }
      UploadStep(i, PutSync);
      ok := RenameUpload(i, env);
    }

    /** The request ended in an error that it returned, or while it was still waiting for its turn. */
    predicate Refused(i: Id)
      reads this
    {
      i in sys.ops && (sys.ops[i].Failed? || (sys.ops[i].Lost? && Waiting(sys.ops[i].was)))
    }

    method CreateUpload(i: Id)
      requires Valid() && i in sys.ops && sys.ops[i].PutLocked?
      modifies this
      ensures Valid() && old(acts) <= acts && StagingThere(i) && sys.ops[i].PutStreaming? && sys.ops[i].body == []
      ensures sys.ops[i].loc == old(sys.ops[i].loc) && sys.ops[i].attrs == old(sys.ops[i].attrs)
    {
      var n := NewUuid();
      var ino := NewInode();
      ghost var s := sys;
      Perform(Take(i, PutCreate(n, ino)));
      UploadStarts(md5, s, i, n, ino, sys);
    }

    method UploadBody(i: Id, body: seq<Piece>, env: Env) returns (ok: bool)
      requires Valid() && i in sys.ops && sys.ops[i].PutLocked?
      modifies this
      ensures Valid() && old(acts) <= acts && i in sys.ops
      ensures ok ==
        (Intact(body, |body|) && env.Spares(Create, Write) && Place !in env.fails && env.Spares(Stage, Publish))
      ensures ok ==> Installed(i, old(sys.ops[i].loc), Upload(BodyBytes(body), old(sys.ops[i].attrs)))
      ensures ok && env.lists ==> OneFileLeft(old(sys.ops[i].loc))
      ensures !ok ==> sys.ops[i].Failed?
    {
      Await(i);
      if Create in env.fails {
        Step(i, Fail);
        return false;
      }
      CreateUpload(i);
      ok := ReceiveBody(i, body, env);
      if ok { ok := PlaceData(i, env); }
      if ok { ok := InstallMeta(i, env); }
    }

    lemma RefusedEvents(i: Id)
      requires Valid() && Refused(i)
      ensures EventsBy(i, Events(md5, acts)) == []
    {
      RunMade(md5, acts, i);
      RefusedMade(sys.disk, i, sys.ops[i]);
    }

    /** `put_object`, behind its check of the bucket: with any interleaving of other requests, it either
        stores the whole body as one new version in a single step, with its MD5 as ETag, or changes nothing
        that anyone can see. It stores it just if the key has 1 to 1024 bytes, the body arrives whole and is not
        too long, the lock comes, and no call fails; and then, if the directory can be listed, no other data file
        is left there. */
    method PutObject(i: Id, loc: Loc, attrs: Attrs, body: seq<Piece>, env: Env) returns (ok: bool)
      requires Valid() && i !in sys.ops
      modifies this
      ensures Valid() && old(acts) <= acts
      ensures ok <==>
        && 1 <= |loc.key| <= 1024 && Intact(body, |body|) && env.lock
        && env.Spares(Create, Write) && Place !in env.fails && env.Spares(Stage, Publish)
      ensures EventsBy(i, Events(md5, acts)) ==
        var b := BodyBytes(body);
        if ok then [Event(i, loc, Some(Version(loc.key, |b|, PlainEtag(md5, b), attrs, b)))] else []
      ensures ok && env.lists ==> OneFileLeft(loc)
    {
      if |loc.key| == 0 || |loc.key| > MAX_KEY_LENGTH {
        RunMade(md5, acts, i);
        return false;
      }
      Perform(Arrive(i, PutNew(loc, attrs)));
      ok := ObjectLock(i, env);
      if ok { ok := UploadBody(i, body, env); }
      if ok {
        InstallOutcome(md5, acts, i, sys);
        MeetsIsUploaded(md5, loc, BodyBytes(body), attrs, EventsBy(i, Events(md5, acts))[0]);
      } else {
        RefusedEvents(i);
      }
    }

    // ---- delete_object ----

    /** Request `i` is a delete that has done its work, at act `m` unlinking metadata that named `name`, which it
        has removed, unless it could not read it. */
    ghost predicate Removed(i: Id, loc: Loc, env: Env, m: nat, name: Name)
      reads this
    {
      && i in sys.ops && sys.ops[i] == DelDone(loc, true)
      && (Read !in env.fails ==> UnlinkedAt(md5, acts, m, i, loc, name) && Entry(loc, name) !in sys.disk.data)
    }

    method RemoveObject(i: Id, env: Env) returns (removed: bool, ghost m: nat, ghost name: Name)
      requires Valid() && i in sys.ops && sys.ops[i].DelLocked?
      modifies this
      ensures Valid() && old(acts) <= acts && i in sys.ops
      ensures sys.ops[i] == DelDone(old(sys.ops[i].loc), removed)
      ensures removed ==> Removed(i, old(sys.ops[i].loc), env, m, name)
    {
      m, name := 0, 0;
      Await(i);
      Step(i, DelProbe);
      removed := sys.ops[i].DelPresent?;
      if removed {
        ReadDataName(i, env);
        m, name := RemoveFiles(i, env);
      }
    }

    lemma PresentIsThere(i: Id)
      requires Valid() && i in sys.ops && sys.ops[i].DelPresent?
      ensures sys.ops[i].loc in sys.disk.meta
    {
      Safety(md5, acts);
      assert OpInv(md5, sys.disk, i, sys.ops[i]);
    }

    lemma KnownIsNamed(i: Id)
      requires Valid() && i in sys.ops && sys.ops[i].DelKnown? && sys.ops[i].data.Some?
      ensures sys.ops[i].loc in sys.disk.meta && sys.disk.meta[sys.ops[i].loc].data == sys.ops[i].data.value
    {
      Safety(md5, acts);
      assert OpInv(md5, sys.disk, i, sys.ops[i]);
    }

    /** The name of the data file, as far as the metadata can be read. */
    method ReadDataName(i: Id, env: Env)
      requires Valid() && i in sys.ops && sys.ops[i].DelPresent?
      modifies this
      ensures Valid() && old(acts) <= acts && i in sys.ops
      ensures sys.ops[i].DelKnown? && sys.ops[i].loc == old(sys.ops[i].loc)
      ensures sys.ops[i].data.Some? <==> Read !in env.fails
    {
      Await(i);
      PresentIsThere(i);
      Step(i, DelRead(Read !in env.fails));
    }

    /** The metadata goes; what it named is remembered. */
    method UnlinkMeta(i: Id) returns (ghost m: nat, ghost name: Name)
      requires Valid() && i in sys.ops && sys.ops[i].DelKnown?
      modifies this
      ensures Valid() && old(acts) <= acts && i in sys.ops
      ensures old(sys.ops[i].data).Some? ==>
        && sys.ops[i] == DelGone(old(sys.ops[i].loc), name)
        && UnlinkedAt(md5, acts, m, i, old(sys.ops[i].loc), name)
      ensures old(sys.ops[i].data).None? ==> sys.ops[i] == DelDone(old(sys.ops[i].loc), true)
    {
      m, name := |acts|, if sys.ops[i].data.Some? then sys.ops[i].data.value else 0;
      ghost var before, s, loc := acts, sys, sys.ops[i].loc;
      if sys.ops[i].data.Some? { KnownIsNamed(i); }
      MetaNow(md5, acts, sys, loc);
      Perform(Take(i, DelMeta));
      MetaGoes(md5, s, i, sys);
      MetaAtStays(md5, before, acts, m, loc);
    }

    /** Metadata before data. */
    method RemoveFiles(i: Id, env: Env) returns (ghost m: nat, ghost name: Name)
      requires Valid() && i in sys.ops && sys.ops[i].DelKnown?
      requires sys.ops[i].data.Some? <==> Read !in env.fails
      modifies this
      ensures Valid() && old(acts) <= acts && Removed(i, old(sys.ops[i].loc), env, m, name)
    {
      Await(i);
      m, name := UnlinkMeta(i);
      if sys.ops[i].DelGone? {
        ghost var unlinked := acts;
        Await(i);
        ghost var s := sys;
        Perform(Take(i, DelData));
        DataFileGoes(md5, s, i, sys);
        UnlinkedStays(md5, unlinked, acts, m, i, sys.ops[i].loc, name);
      }
    }

    /** `delete_object`, behind its check of the bucket: it removes the object, in a single step, if and only
        if the object is there when it looks, and then, if it can read the metadata, the data file that the removed
        metadata named is gone. It gets to look just if its lock comes. */
    method DeleteObject(i: Id, loc: Loc, env: Env)
      returns (done: bool, removed: bool, ghost k: nat, ghost m: nat, ghost name: Name)
      requires Valid() && i !in sys.ops
      modifies this
      ensures Valid() && old(acts) <= acts && done == env.lock
      ensures done ==> ProbedAt(md5, acts, k, i, loc, removed)
      ensures EventsBy(i, Events(md5, acts)) == if done && removed then [Event(i, loc, None)] else []
      ensures done && removed && Read !in env.fails ==>
        UnlinkedAt(md5, acts, m, i, loc, name) && Entry(loc, name) !in sys.disk.data
    {
      removed, k, m, name := false, 0, 0, 0;
      Perform(Arrive(i, DelNew(loc)));
      ghost var arrived := acts;
      done := ObjectLock(i, env);
      if done {
        removed, m, name := RemoveObject(i, env);
        assert arrived[|arrived| - 1] == Arrive(i, DelNew(loc)) && arrived <= acts;
        k := DeleteOutcome(md5, acts, i, loc, sys);
      } else {
        RefusedEvents(i);
      }
    }

    // ---- copy_object ----

    /** Request `i`, a copy under its lock, has its data file: to be hashed under REPLACE, ready otherwise. */
    predicate HasCopy(i: Id, was: Op)
      requires was.CopyLocked?
      reads this
    {
      match was.replace
      case None => IsReady(i, was.loc, Duplicate(was.seen, None))
      case Some(given) => IsHashing(i, was.loc, given, was.seen)
    }

    lemma SourceIsGone(loc: Loc, m: Meta)
      requires Valid() && (Entry(loc, m.data) !in sys.disk.data || Content(sys.disk, loc, m.data).None?)
      ensures MetaAt(md5, acts, |acts|, loc) != Some(m)
    {
      Safety(md5, acts);
      GoneIsReplaced(md5, sys.disk, loc, m);
      MetaNow(md5, acts, sys, loc);
    }

    /** A hard link, or else a copy of the bytes. Both calls fail, or the source is not what it was at act `k`. */
    method LinkOrCopy(i: Id, env: Env) returns (ok: bool, ghost k: nat)
      requires Valid() && i in sys.ops && sys.ops[i].CopyLocked?
      modifies this
      ensures Valid() && old(acts) <= acts && i in sys.ops && k <= |acts|
      ensures ok ==> HasCopy(i, old(sys.ops[i])) && env.LinkOrCopyWorks()
      ensures !ok ==> sys.ops[i].Failed?
      ensures !ok && env.LinkOrCopyWorks() ==>
        |old(acts)| <= k && MetaAt(md5, acts, k, old(sys.ops[i].src)) != Some(old(sys.ops[i].from))
    {
      Await(i);
      k := |acts|;
      var op := sys.ops[i];
      if Link !in env.fails {
        if Entry(op.src, op.from.data) in sys.disk.data {
          var n := NewUuid();
          Step(i, CopyLink(n));
          return true, k;
        }
        SourceIsGone(op.src, op.from);
      }
      ghost var linked := acts;
      ok, k := CopyData(i, env, k);
      MetaAtStays(md5, linked, acts, |linked|, op.src);
    }

    /** The copy of the bytes, where the link has failed. */
    method CopyData(i: Id, env: Env, ghost tried: nat) returns (ok: bool, ghost k: nat)
      requires Valid() && i in sys.ops && sys.ops[i].CopyLocked? && tried == |acts|
      modifies this
      ensures Valid() && old(acts) <= acts && i in sys.ops && tried <= k <= |acts|
      ensures ok ==> HasCopy(i, old(sys.ops[i])) && Copy !in env.fails
      ensures !ok ==> sys.ops[i].Failed?
      ensures !ok ==>
        if Copy in env.fails then k == tried
        else MetaAt(md5, acts, k, old(sys.ops[i].src)) != Some(old(sys.ops[i].from))
    {
      Await(i);
      k := if Copy in env.fails then tried else |acts|;
      var op := sys.ops[i];
      var n := NewUuid();
      var ino := NewInode();
      if Copy !in env.fails {
        if Content(sys.disk, op.src, op.from.data).Some? {
          Step(i, CopyBytes(n, ino));
          return true, k;
        }
        SourceIsGone(op.src, op.from);
      }
      ghost var before := acts;
      ok := false;
      if * {
        var some: Bytes := *;
        Step(i, CopyPartly(n, ino, some));
      } else {
        Step(i, Fail);
      }
      MetaAtStays(md5, before, acts, k, op.src);
    }

    predicate IsHashing(i: Id, loc: Loc, given: Attrs, seen: Version)
      reads this
    {
      i in sys.ops && sys.ops[i].CopyHashing? && sys.ops[i].loc == loc && sys.ops[i].given == given
      && sys.ops[i].seen == seen
    }

    lemma HashingFile(i: Id)
      requires Valid() && i in sys.ops && sys.ops[i].CopyHashing?
      ensures sys.ops[i].hashed <= sys.ops[i].seen.bytes
      ensures Content(sys.disk, sys.ops[i].loc, sys.ops[i].name) == Some(sys.ops[i].seen.bytes)
    {
      Safety(md5, acts);
      assert OpInv(md5, sys.disk, i, sys.ops[i]);
      HashedFile(md5, sys.disk, i, sys.ops[i]);
    }

    /** The next block of the file goes into the hash. */
    method HashBlock(i: Id) returns (hashed: nat)
      requires Valid() && i in sys.ops && sys.ops[i].CopyHashing? && |sys.ops[i].hashed| < |sys.ops[i].seen.bytes|
      modifies this
      ensures Valid() && old(acts) <= acts
      ensures IsHashing(i, old(sys.ops[i].loc), old(sys.ops[i].given), old(sys.ops[i].seen))
      ensures hashed == |sys.ops[i].hashed| && |old(sys.ops[i].hashed)| < hashed <= |sys.ops[i].seen.bytes|
    {
      HashingFile(i);
      var n: nat :| 0 < n && |sys.ops[i].hashed| + n <= |sys.ops[i].seen.bytes|;
      hashed := |sys.ops[i].hashed| + n;
      Step(i, CopyHash(n));
    }

    /** Reads the new data file block by block to its end. */
    method HashData(i: Id, env: Env) returns (ok: bool)
      requires Valid() && i in sys.ops && sys.ops[i].CopyHashing?
      modifies this
      ensures Valid() && old(acts) <= acts && i in sys.ops && ok == (Hash !in env.fails)
      ensures ok ==> IsReady(i, old(sys.ops[i].loc), Duplicate(old(sys.ops[i].seen), Some(old(sys.ops[i].given))))
      ensures ok ==> sys.ops[i].meta.etag == PlainEtag(md5, old(sys.ops[i].seen.bytes))
      ensures !ok ==> sys.ops[i].Failed?
    {
      var loc, given, seen := sys.ops[i].loc, sys.ops[i].given, sys.ops[i].seen;
      HashingFile(i);
      var hashed := |sys.ops[i].hashed|;
      while hashed < |seen.bytes|
        invariant Valid() && old(acts) <= acts && IsHashing(i, loc, given, seen)
        invariant hashed == |sys.ops[i].hashed| <= |seen.bytes|
      {
        Await(i);
        var failed: bool := *;
        if failed && Hash in env.fails {
          Step(i, Fail);
          return false;
        }
        hashed := HashBlock(i);
      }
      ok := EndHash(i, env);
    }

    /** The whole file is hashed, and the hash is its bytes'. */
    method EndHash(i: Id, env: Env) returns (ok: bool)
      requires Valid() && i in sys.ops && sys.ops[i].CopyHashing? && |sys.ops[i].hashed| == |sys.ops[i].seen.bytes|
      modifies this
      ensures Valid() && old(acts) <= acts && i in sys.ops && ok == (Hash !in env.fails)
      ensures ok ==> IsReady(i, old(sys.ops[i].loc), Duplicate(old(sys.ops[i].seen), Some(old(sys.ops[i].given))))
      ensures ok ==> sys.ops[i].meta.etag == PlainEtag(md5, old(sys.ops[i].seen.bytes))
      ensures !ok ==> sys.ops[i].Failed?
    {
      Await(i);
      ok := Hash !in env.fails;
      if ok {
        HashingFile(i);
        assert sys.ops[i].hashed == sys.ops[i].seen.bytes;
        Step(i, CopyHashed);
      } else {
        Step(i, Fail);
      }
    }

    /** No call fails that a copy needs. */
    predicate CopyWorks(env: Env, replace: Option<Attrs>) {
      && Read !in env.fails && env.LinkOrCopyWorks() && env.Spares(Stage, Publish)
      && (replace.Some? ==> Hash !in env.fails)
    }

    /** The data file of the copy, and its hash under REPLACE. */
    method DuplicateData(i: Id, env: Env) returns (ok: bool, ghost k: nat)
      requires Valid() && i in sys.ops && sys.ops[i].CopyLocked?
      modifies this
      ensures Valid() && old(acts) <= acts && i in sys.ops && k <= |acts|
      ensures ok ==> IsReady(i, old(sys.ops[i].loc), Duplicate(old(sys.ops[i].seen), old(sys.ops[i].replace)))
      ensures ok ==> env.LinkOrCopyWorks() && (old(sys.ops[i].replace).Some? ==> Hash !in env.fails)
      ensures !ok ==> sys.ops[i].Failed?
      ensures !ok ==>
        || !env.LinkOrCopyWorks() || (old(sys.ops[i].replace).Some? && Hash in env.fails)
        || (|old(acts)| <= k && MetaAt(md5, acts, k, old(sys.ops[i].src)) != Some(old(sys.ops[i].from)))
    {
      ok, k := LinkOrCopy(i, env);
      if ok && sys.ops[i].CopyHashing? { ok := HashData(i, env); }
    }

    /** The metadata of the source, as it is at act `k`. */
    method ReadSource(i: Id, env: Env) returns (ok: bool, ghost k: nat)
      requires Valid() && i in sys.ops && sys.ops[i].CopyNew?
      modifies this
      ensures Valid() && old(acts) <= acts && i in sys.ops && |old(acts)| <= k <= |acts|
      ensures ok ==>
        && Read !in env.fails && sys.ops[i].CopyKnown? && sys.ops[i].loc == old(sys.ops[i].loc)
        && sys.ops[i].src == old(sys.ops[i].src) && sys.ops[i].replace == old(sys.ops[i].replace)
        && MetaAt(md5, acts, k, old(sys.ops[i].src)) == Some(sys.ops[i].from)
      ensures !ok ==> sys.ops[i].Failed?
      ensures !ok ==> Read in env.fails || MetaAt(md5, acts, k, old(sys.ops[i].src)).None?
    {
      Await(i);
      k := |acts|;
      ghost var before, src := acts, sys.ops[i].src;
      MetaNow(md5, acts, sys, src);
      ok := Read !in env.fails && sys.ops[i].src in sys.disk.meta;
      if ok { Step(i, CopyRead); } else { Step(i, Fail); }
      MetaAtStays(md5, before, acts, k, src);
    }

    /** The copy once the source's metadata is known: under the lock of the destination. */
    method DuplicateObject(i: Id, env: Env) returns (ok: bool, ghost k: nat)
      requires Valid() && i in sys.ops && sys.ops[i].CopyKnown?
      modifies this
      ensures Valid() && old(acts) <= acts && k <= |acts|
      ensures if ok then i in sys.ops && sys.ops[i].InstallDone? else Refused(i)
      ensures ok ==>
        && env.lock && env.Spares(Stage, Publish) && env.LinkOrCopyWorks()
        && (old(sys.ops[i].replace).Some? ==> Hash !in env.fails)
      ensures ok && env.lists ==> OneFileLeft(old(sys.ops[i].loc))
      ensures !ok ==>
        || !env.lock || !(env.Spares(Stage, Publish)) || !env.LinkOrCopyWorks()
        || (old(sys.ops[i].replace).Some? && Hash in env.fails)
        || (|old(acts)| <= k && MetaAt(md5, acts, k, old(sys.ops[i].src)) != Some(old(sys.ops[i].from)))
    {
      k := 0;
      ghost var src := sys.ops[i].src;
      ok := ObjectLock(i, env);
      if ok {
        ok, k := DuplicateData(i, env);
        if ok { ok := InstallMeta(i, env); }
      }
    }

    /** `copy_object`: stores, in a single step, the one version of the source that was current when its
        metadata was read, or changes nothing that anyone can see. It fails only if the lock does not come, a call
        fails, or the source was missing when it looked, or was replaced before its file was linked or copied. */
    method CopyObject(i: Id, src: Loc, loc: Loc, replace: Option<Attrs>, env: Env)
      returns (ok: bool, ghost k: nat, ghost v: Version, ghost from: nat, ghost to: nat)
      requires Valid() && i !in sys.ops
      modifies this
      ensures Valid() && old(acts) <= acts
      ensures ok ==> ReadAt(md5, acts, k, i, src, v) && env.lock && CopyWorks(env, replace)
      ensures !ok ==>
        !env.lock || !CopyWorks(env, replace) || (|old(acts)| < from && Missing(md5, acts, from, to, src))
      ensures EventsBy(i, Events(md5, acts)) ==
        if ok then [Event(i, loc, Some(CopiedVersion(md5, v, loc.key, replace)))] else []
      ensures ok && env.lists ==> OneFileLeft(loc)
    {
      k, v, to := 0, Version([], 0, [], Attrs([], map[]), []), 0;
      Perform(Arrive(i, CopyNew(loc, src, replace)));
      ghost var arrived := acts;
      ok, from := ReadSource(i, env);
      to := from;
      if ok {
        ghost var read := acts;
        ok, to := DuplicateObject(i, env);
        MetaAtStays(md5, read, acts, from, src);
      }
      if ok {
        assert arrived[|arrived| - 1] == Arrive(i, CopyNew(loc, src, replace)) && arrived <= acts;
        k, v := CopyInstallsOneVersion(md5, acts, i, src, loc, replace, sys);
      } else {
        RefusedEvents(i);
      }
    }

    // ---- get_object_range ----

    lemma OpenFile(i: Id)
      requires Valid() && i in sys.ops && sys.ops[i].GetStreaming?
      ensures sys.ops[i].ino in sys.disk.inodes
      ensures Wanted(sys.ops[i].seen.size, sys.ops[i].start, sys.ops[i].len) > 0 ==>
        sys.ops[i].start + Wanted(sys.ops[i].seen.size, sys.ops[i].start, sys.ops[i].len)
          <= |sys.disk.inodes[sys.ops[i].ino]|
    {
      Safety(md5, acts);
      assert OpInv(md5, sys.disk, i, sys.ops[i]);
      StreamedFile(md5, sys.disk, i, sys.ops[i]);
    }

    /** Request `i`, whose stream was open, has read `n` bytes by now. */
    predicate IsReading(i: Id, was: Op, n: nat)
      requires was.GetStreaming?
      reads this
    {
      && i in sys.ops && sys.ops[i].GetStreaming?
      && sys.ops[i].start == was.start && sys.ops[i].len == was.len && sys.ops[i].seen == was.seen
      && |sys.ops[i].out| == n
    }

    /** The next block of the file, and how much has been read with it. */
    method ReadBlock(i: Id) returns (read: nat)
      requires Valid() && i in sys.ops && sys.ops[i].GetStreaming?
      requires |sys.ops[i].out| < Wanted(sys.ops[i].seen.size, sys.ops[i].start, sys.ops[i].len)
      modifies this
      ensures Valid() && old(acts) <= acts && IsReading(i, old(sys.ops[i]), read)
      ensures |old(sys.ops[i].out)| < read <= Wanted(sys.ops[i].seen.size, sys.ops[i].start, sys.ops[i].len)
    {
      OpenFile(i);
      var wanted := Wanted(sys.ops[i].seen.size, sys.ops[i].start, sys.ops[i].len);
      var n: nat :| 0 < n && |sys.ops[i].out| + n <= wanted;
      read := |sys.ops[i].out| + n;
      Step(i, GetRead(n));
    }

    method ReadStream(i: Id, env: Env) returns (ok: bool)
      requires Valid() && i in sys.ops && sys.ops[i].GetStreaming? && sys.ops[i].out == []
      modifies this
      ensures Valid() && old(acts) <= acts && i in sys.ops && ok == (Stream !in env.fails)
      ensures ok ==> sys.ops[i].GetDone?
    {
      var wanted := Wanted(sys.ops[i].seen.size, sys.ops[i].start, sys.ops[i].len);
      var read := 0;
      while read < wanted
        invariant Valid() && old(acts) <= acts && i in sys.ops && read <= wanted
        invariant IsReading(i, old(sys.ops[i]), read)
      {
        Await(i);
        var failed: bool := *;
        if failed && Stream in env.fails {
          Step(i, Fail);
          return false;
        }
        read := ReadBlock(i);
      }
      ok := EndStream(i, env);
    }

    /** The read that finds the end of the file. */
    method EndStream(i: Id, env: Env) returns (ok: bool)
      requires Valid() && i in sys.ops && sys.ops[i].GetStreaming?
      requires |sys.ops[i].out| == Wanted(sys.ops[i].seen.size, sys.ops[i].start, sys.ops[i].len)
      modifies this
      ensures Valid() && old(acts) <= acts && i in sys.ops && ok == (Stream !in env.fails)
      ensures ok ==> sys.ops[i].GetDone?
    {
      Await(i);
      OpenFile(i);
      ok := Stream !in env.fails;
      if ok { Step(i, GetEnd); } else { Step(i, Fail); }
    }

    /** The metadata, as it is at act `k`. */
    method ReadMeta(i: Id, env: Env) returns (ok: bool, ghost k: nat)
      requires Valid() && i in sys.ops && sys.ops[i].GetNew?
      modifies this
      ensures Valid() && old(acts) <= acts && i in sys.ops && |old(acts)| <= k <= |acts|
      ensures ok ==>
        && Read !in env.fails && sys.ops[i].GetKnown? && sys.ops[i].loc == old(sys.ops[i].loc)
        && MetaAt(md5, acts, k, old(sys.ops[i].loc)) == Some(sys.ops[i].from)
      ensures !ok ==> Read in env.fails || MetaAt(md5, acts, k, old(sys.ops[i].loc)).None?
    {
      Await(i);
      k := |acts|;
      ghost var before, loc := acts, sys.ops[i].loc;
      MetaNow(md5, acts, sys, loc);
      ok := Read !in env.fails && sys.ops[i].loc in sys.disk.meta;
      if ok { Step(i, GetMeta); } else { Step(i, Fail); }
      MetaAtStays(md5, before, acts, k, loc);
    }

    /** The file that the metadata names may be gone by then, at act `k`, but only with the metadata. */
    method OpenData(i: Id, env: Env) returns (ok: bool, ghost k: nat)
      requires Valid() && i in sys.ops && sys.ops[i].GetKnown?
      modifies this
      ensures Valid() && old(acts) <= acts && i in sys.ops && |old(acts)| <= k <= |acts|
      ensures ok ==> Open !in env.fails && sys.ops[i].GetStreaming? && sys.ops[i].out == []
      ensures !ok ==> Open in env.fails || MetaAt(md5, acts, k, old(sys.ops[i].loc)) != Some(old(sys.ops[i].from))
    {
      Await(i);
      k := |acts|;
      ghost var before, loc, from := acts, sys.ops[i].loc, sys.ops[i].from;
      ok := Open !in env.fails && Entry(sys.ops[i].loc, sys.ops[i].from.data) in sys.disk.data;
      if ok {
        Step(i, GetOpen);
      } else {
        if Open !in env.fails { SourceIsGone(loc, from); }
        Step(i, Fail);
      }
      MetaAtStays(md5, before, acts, k, loc);
    }

    /** `get_object_range` and the reading of its stream to the end: takes no lock, and returns the
        requested slice of the one version that was current when the metadata was read. It fails only if a call
        fails, or the object was missing when it looked, or was replaced before its file was opened. */
    method GetObjectRange(i: Id, loc: Loc, start: nat, len: Option<nat>, env: Env)
      returns (out: Option<Bytes>, ghost k: nat, ghost v: Version, ghost from: nat, ghost to: nat)
      requires Valid() && i !in sys.ops
      modifies this
      ensures Valid() && old(acts) <= acts
      ensures out.Some? ==> ReadAt(md5, acts, k, i, loc, v) && out.value == Slice(v.bytes, start, len)
      ensures out.Some? ==> env.Spares(Read, Open) && Stream !in env.fails
      ensures out.None? ==>
        !env.Spares(Read, Open) || Stream in env.fails || (|old(acts)| < from && Missing(md5, acts, from, to, loc))
    {
      k, v, out := 0, Version([], 0, [], Attrs([], map[]), []), None;
      Perform(Arrive(i, GetNew(loc, start, len)));
      ghost var arrived := acts;
      var ok;
      ok, from := ReadMeta(i, env);
      to := from;
      if ok {
        ghost var read := acts;
        ok, to := OpenData(i, env);
        MetaAtStays(md5, read, acts, from, loc);
        if ok { ok := ReadStream(i, env); }
      }
      if ok {
        out := Some(sys.ops[i].out);
        assert arrived[|arrived| - 1] == Arrive(i, GetNew(loc, start, len)) && arrived <= acts;
        k, v := ReadReturnsOneVersion(md5, acts, i, loc, start, len, sys);
      }
    }

    // ---- complete_multipart, once its list is accepted ----

    lemma WritingFile(i: Id)
      requires Valid() && i in sys.ops && sys.ops[i].JoinWriting?
      ensures sys.ops[i].ino in sys.disk.inodes
    {
      Safety(md5, acts);
      assert OpInv(md5, sys.disk, i, sys.ops[i]);
    }

    /** The next block of the parts goes to the data file. */
    method AppendBlock(i: Id) returns (wrote: nat)
      requires Valid() && i in sys.ops && sys.ops[i].JoinWriting? && sys.ops[i].wrote < |Concat(sys.ops[i].parts)|
      modifies this
      ensures Valid() && old(acts) <= acts && IsWriting(i, old(sys.ops[i]), wrote)
      ensures old(sys.ops[i].wrote) < wrote <= |Concat(old(sys.ops[i].parts))|
    {
      WritingFile(i);
      var some: nat :| 0 < some && sys.ops[i].wrote + some <= |Concat(sys.ops[i].parts)|;
      wrote := sys.ops[i].wrote + some;
      Step(i, JoinAppend(some));
    }

    /** The parts are written one behind the other, in blocks of any size. Writes that fail may show only at the
        sync behind the loop. */
    method WriteParts(i: Id, env: Env) returns (ok: bool)
      requires Valid() && i in sys.ops && sys.ops[i].JoinWriting? && sys.ops[i].wrote == 0
      modifies this
      ensures Valid() && old(acts) <= acts && i in sys.ops
      ensures ok ==> IsWriting(i, old(sys.ops[i]), |Concat(old(sys.ops[i].parts))|)
      ensures !ok ==> sys.ops[i].Failed? && Write in env.fails
    {
      var wrote, total := 0, |Concat(sys.ops[i].parts)|;
      while wrote < total
        invariant Valid() && old(acts) <= acts && wrote <= total
        invariant IsWriting(i, old(sys.ops[i]), wrote)
      {
        Await(i);
        var failed: bool := *;
        if failed && Write in env.fails {
          Step(i, Fail);
          return false;
        }
        wrote := AppendBlock(i);
      }
      ok := true;
    }

    /** Request `i`, which was assembling, has written `n` bytes by now. */
    predicate IsWriting(i: Id, was: Op, n: nat)
      requires was.JoinWriting?
      reads this
    {
      i in sys.ops && sys.ops[i] == JoinWriting(was.loc, was.attrs, was.parts, was.name, was.ino, n)
    }

    method AssembleData(i: Id, env: Env) returns (ok: bool)
      requires Valid() && i in sys.ops && sys.ops[i].JoinLocked?
      modifies this
      ensures Valid() && old(acts) <= acts && i in sys.ops && ok == (env.Spares(Create, Write))
      ensures ok ==> IsReady(i, old(sys.ops[i].loc), Assembly(old(sys.ops[i].parts), old(sys.ops[i].attrs)))
      ensures !ok ==> sys.ops[i].Failed?
    {
      Await(i);
      if Create in env.fails {
        Step(i, Fail);
        return false;
      }
      var n := NewUuid();
      var ino := NewInode();
      Step(i, JoinCreate(n, ino));
      ok := WriteParts(i, env);
      if ok { ok := SyncParts(i, env); }
    }

    method SyncParts(i: Id, env: Env) returns (ok: bool)
      requires Valid() && i in sys.ops && sys.ops[i].JoinWriting? && sys.ops[i].wrote == |Concat(sys.ops[i].parts)|
      modifies this
      ensures Valid() && old(acts) <= acts && i in sys.ops && ok == (Write !in env.fails)
      ensures ok ==> IsReady(i, old(sys.ops[i].loc), Assembly(old(sys.ops[i].parts), old(sys.ops[i].attrs)))
      ensures !ok ==> sys.ops[i].Failed?
    {
      Await(i);
      ok := Write !in env.fails;
      if ok { Step(i, JoinSync); } else { Step(i, Fail); }
    }

    /** The install of a completed upload: its parts, concatenated, become one new version in a single step, just
        if the lock comes and no call fails; otherwise nothing changes that anyone can see. */
    method InstallParts(i: Id, loc: Loc, attrs: Attrs, parts: seq<Bytes>, env: Env) returns (ok: bool)
      requires Valid() && i !in sys.ops
      modifies this
      ensures Valid() && old(acts) <= acts
      ensures ok <==> env.lock && env.Spares(Create, Write) && env.Spares(Stage, Publish)
      ensures EventsBy(i, Events(md5, acts)) ==
        var b := Concat(parts);
        if ok then [Event(i, loc, Some(Version(loc.key, |b|, MultipartEtag(md5, parts), attrs, b)))] else []
      ensures ok && env.lists ==> OneFileLeft(loc)
    {
      Perform(Arrive(i, JoinNew(loc, attrs, parts)));
      ghost var arrived := acts;
      ok := ObjectLock(i, env);
      if ok { ok := AssembleData(i, env); }
      if ok { ok := InstallMeta(i, env); }
      if ok {
        assert arrived[|arrived| - 1] == Arrive(i, JoinNew(loc, attrs, parts)) && arrived <= acts;
        JoinOutcome(md5, acts, i, loc, attrs, parts, sys);
      } else {
        RefusedEvents(i);
      }
    }
  }
}
