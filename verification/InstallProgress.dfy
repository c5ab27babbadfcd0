/** Progress and clean-up in the install protocol: what garbage collection leaves and spares, and how every
    lock is given back. */
module InstallProgress {
  import opened ByteStrings
  import opened Objects
  import opened Install
  import opened InstallSafety
  import opened InstallSteps
  import opened InstallInvariant
  import opened InstallRuns
  import opened InstallRequests

  // ---- garbage collection ----

  lemma GcEndShape(md5: Md5, s: Sys, i: Id, t: Sys)
    requires Enabled(s, Take(i, GcEnd)) && t == Do(md5, s, Take(i, GcEnd))
    ensures s.ops[i].Sweeping? && s.ops[i].todo <= {s.ops[i].meta.data}
    ensures t.disk == s.disk && i in t.ops
    ensures t.ops[i] == InstallDone(s.ops[i].loc, s.ops[i].goal, s.ops[i].meta, true)
  {}

  lemma SweptDirectory(md5: Md5, d: Disk, i: Id, op: Op)
    requires DiskOk(md5, d) && op.Sweeping? && op.todo <= {op.meta.data} && OpInv(md5, d, i, op)
    ensures IsMeta(d, op.loc, op.meta) && Names(d, op.loc) == {op.meta.data}
  {
    assert MetaOk(md5, d, op.loc);
    assert Entry(op.loc, op.meta.data) in d.data;
    assert Covers(d, op.loc, op.meta.data, op.todo);
  }

  /** However many crashed installs came before, once an install has swept its directory the only data
      file left there is the one its metadata names. */
  lemma SweepLeavesOneFile(md5: Md5, acts: seq<Act>, i: Id, s: Sys, t: Sys)
    requires Run(md5, acts) == Some(s) && Enabled(s, Take(i, GcEnd)) && t == Do(md5, s, Take(i, GcEnd))
    ensures i in t.ops && t.ops[i].InstallDone? && t.ops[i].swept
    ensures IsMeta(t.disk, t.ops[i].loc, t.ops[i].meta)
    ensures Names(t.disk, t.ops[i].loc) == {t.ops[i].meta.data}
  {
    GcEndShape(md5, s, i, t);
    Reached(md5, acts, i, s);
    SweptDirectory(md5, s.disk, i, s.ops[i]);
  }

  /** The data file that an unfinished install has put in place and still needs. */
  function Needed(op: Op): Option<Entry> {
    if op.CopyHashing? || op.JoinWriting? then Some(Entry(op.loc, op.name))
    else if op.Ready? || op.Staged? then Some(Entry(op.loc, op.meta.data))
    else None
  }

  lemma SweepSparesMetadata(md5: Md5, d: Disk, i: Id, op: Op, n: Name, loc: Loc)
    requires op.Sweeping? && OpInv(md5, d, i, op) && n != op.meta.data && loc in d.meta
    ensures Entry(loc, d.meta[loc].data) != Entry(op.loc, n)
  {}

  lemma SweepSparesOthers(s: Sys, i: Id, n: Name, j: Id)
    requires LocksOk(s) && i in s.ops && s.ops[i].Sweeping? && j in s.ops
    ensures Needed(s.ops[j]) != Some(Entry(s.ops[i].loc, n))
  {
    if j != i && Needed(s.ops[j]).Some? { OtherHolders(s, i, j); }
  }

  lemma SweepSparesAll(md5: Md5, s: Sys, i: Id, n: Name)
    requires DiskOk(md5, s.disk) && LocksOk(s)
    requires i in s.ops && s.ops[i].Sweeping? && n != s.ops[i].meta.data && OpInv(md5, s.disk, i, s.ops[i])
    ensures forall loc :: loc in s.disk.meta ==> Entry(loc, s.disk.meta[loc].data) != Entry(s.ops[i].loc, n)
    ensures forall j :: j in s.ops ==> Needed(s.ops[j]) != Some(Entry(s.ops[i].loc, n))
  {
    forall j | j in s.ops
      ensures Needed(s.ops[j]) != Some(Entry(s.ops[i].loc, n))
    {
      SweepSparesOthers(s, i, n, j);
    }
    forall loc | loc in s.disk.meta
      ensures Entry(loc, s.disk.meta[loc].data) != Entry(s.ops[i].loc, n)
    {
      SweepSparesMetadata(md5, s.disk, i, s.ops[i], n, loc);
    }
  }

  lemma GcUnlinkShape(s: Sys, i: Id, n: Name)
    requires Enabled(s, Take(i, GcUnlink(n)))
    ensures s.ops[i].Sweeping? && n != s.ops[i].meta.data
  {}

  /** Garbage collection never removes a file that any metadata names, nor one that an install in
      flight, on this object or another, still needs. */
  lemma SweepIsSafe(md5: Md5, acts: seq<Act>, i: Id, n: Name, s: Sys)
    requires Run(md5, acts) == Some(s) && Enabled(s, Take(i, GcUnlink(n)))
    ensures forall loc :: loc in s.disk.meta ==> Entry(loc, s.disk.meta[loc].data) != Entry(s.ops[i].loc, n)
    ensures forall j :: j in s.ops ==> Needed(s.ops[j]) != Some(Entry(s.ops[i].loc, n))
  {
    GcUnlinkShape(s, i, n);
    Safety(md5, acts);
    assert OpInv(md5, s.disk, i, s.ops[i]);
    SweepSparesAll(md5, s, i, n);
  }

  // ---- locks ----

  /** A call that takes its request forward: it is none of those that fail, give up or leave work undone. */
  predicate Advances(c: Call) {
    && !IsLifeCall(c)
    && !(c.PutBreak? || c.CopyPartly? || c.StageFails? || c.PublishFails? || c.GcSkip? || (c.DelRead? && !c.ok))
  }

  /** The file that the request needs next is gone: its staging file, or the file it copies. */
  predicate Blocked(d: Disk, op: Op) {
    || (op.PutSynced? && op.tmp !in d.tmp)
    || (op.CopyLocked? && Entry(op.src, op.from.data) !in d.data)
  }

  /** How many calls before the lock is given back, apart from those that work through a file or a list. */
  function Stage(op: Op): nat {
    if op.PutLocked? || op.CopyLocked? || op.JoinLocked? then 7
    else if op.PutStreaming? || op.CopyHashing? || op.JoinWriting? then 6
    else if op.PutSynced? then 5
    else if op.Ready? || op.DelLocked? then 4
    else if op.Staged? || op.DelPresent? then 3
    else if op.Published? || op.DelKnown? then 2
    else 1
  }

  /** What is left of the file or the list. */
  function Amount(op: Op): nat {
    if op.CopyHashing? && |op.hashed| <= |op.seen.bytes| then |op.seen.bytes| - |op.hashed|
    else if op.JoinWriting? && op.wrote <= |Concat(op.parts)| then |Concat(op.parts)| - op.wrote
    else if op.Sweeping? then |op.todo - {op.meta.data}|
    else 0
  }

  predicate Closer(op: Op, next: Op) {
    Holds(next) ==> Stage(next) < Stage(op) || (Stage(next) == Stage(op) && Amount(next) < Amount(op))
  }

  lemma {:induction false} UnusedExists(used: set<nat>) returns (bound: nat)
    ensures forall n :: n in used ==> n < bound
  {
    if used == {} {
      bound := 0;
    } else {
      var n :| n in used;
      bound := UnusedExists(used - {n});
      assert forall k :: k in used ==> k == n || k in used - {n};
      bound := if bound <= n then n + 1 else bound;
    }
  }

  lemma FreshExists(d: Disk) returns (n: Name, ino: Ino)
    ensures Fresh(d, n) && ino !in d.inodes
  {
    n := UnusedExists(d.drawn.Keys);
    ino := UnusedExists(d.inodes.Keys);
  }

  lemma PutAdvances(md5: Md5, d: Disk, locks: map<Loc, Id>, op: Op) returns (c: Call)
    requires !Blocked(d, op)
    requires op.PutLocked? || op.PutStreaming? || op.PutBroken? || op.PutSynced?
    ensures IsPutCall(c) && Advances(c) && CanTake(d, locks, op, c) && Closer(op, PutNext(md5, d, locks, op, c))
  {
    var n, ino := FreshExists(d);
    c := if op.PutLocked? then PutCreate(n, ino)
         else if op.PutStreaming? then PutSync
         else if op.PutBroken? then PutRemove
         else PutRename(n);
  }

  lemma CopyAdvances(md5: Md5, d: Disk, locks: map<Loc, Id>, i: Id, op: Op) returns (c: Call)
    requires OpInv(md5, d, i, op) && !Blocked(d, op) && (op.CopyLocked? || op.CopyHashing?)
    ensures IsCopyCall(c) && Advances(c) && CanTake(d, locks, op, c) && Closer(op, CopyNext(md5, d, locks, op, c))
  {
    var n, ino := FreshExists(d);
    if op.CopyLocked? {
      c := CopyLink(n);
    } else {
      HashedFile(md5, d, i, op);
      var left := |op.seen.bytes| - |op.hashed|;
      c := if left > 0 then CopyHash(left) else CopyHashed;
    }
  }

  lemma JoinAdvances(md5: Md5, d: Disk, locks: map<Loc, Id>, i: Id, op: Op) returns (c: Call)
    requires OpInv(md5, d, i, op) && (op.JoinLocked? || op.JoinWriting?)
    ensures IsJoinCall(c) && Advances(c) && CanTake(d, locks, op, c) && Closer(op, JoinNext(md5, d, locks, op, c))
  {
    var n, ino := FreshExists(d);
    if op.JoinLocked? {
      c := JoinCreate(n, ino);
    } else {
      var left := |Concat(op.parts)| - op.wrote;
      c := if left > 0 then JoinAppend(left) else JoinSync;
    }
  }

  lemma SweepAdvances(d: Disk, locks: map<Loc, Id>, op: Op) returns (c: Call)
    requires op.Sweeping?
    ensures IsSwapCall(c) && Advances(c) && CanTake(d, locks, op, c) && Closer(op, SwapNext(d, locks, op, c))
  {
    var rest := op.todo - {op.meta.data};
    if rest == {} {
      c := GcEnd;
    } else {
      var n :| n in rest;
      c := GcUnlink(n);
      assert op.todo - {n} - {op.meta.data} == rest - {n};
    }
  }

  lemma SwapAdvances(md5: Md5, d: Disk, locks: map<Loc, Id>, i: Id, op: Op) returns (c: Call)
    requires Swapping(op) && SwappingInv(md5, d, i, op)
    ensures IsSwapCall(c) && Advances(c) && CanTake(d, locks, op, c) && Closer(op, SwapNext(d, locks, op, c))
  {
    if op.Sweeping? {
      c := SweepAdvances(d, locks, op);
    } else {
      var n, ino := FreshExists(d);
      c := if op.Ready? then StageMeta(n)
           else if op.Staged? then PublishMeta
           else if op.Undoing? then UndoData
           else GcList;
    }
  }

  lemma DelAdvances(d: Disk, locks: map<Loc, Id>, op: Op) returns (c: Call)
    requires Deleting(op) && DeletingInv(d, op)
    ensures IsDelCall(c) && Advances(c) && CanTake(d, locks, op, c) && Closer(op, DelNext(d, locks, op, c))
  {
    c := if op.DelLocked? then DelProbe
         else if op.DelPresent? then DelRead(true)
         else if op.DelKnown? then DelMeta
         else DelData;
  }

  /** A lock holder has a call to make that takes it forward and needs no other lock, unless the file it needs
      next is gone. */
  lemma HolderAdvances(md5: Md5, d: Disk, locks: map<Loc, Id>, i: Id, op: Op) returns (c: Call)
    requires OpInv(md5, d, i, op) && Holds(op) && !Blocked(d, op)
    ensures Advances(c) && CanTake(d, locks, op, c) && Closer(op, Next(md5, d, locks, op, c))
  {
    if Swapping(op) { c := SwapAdvances(md5, d, locks, i, op); }
    else if Deleting(op) { c := DelAdvances(d, locks, op); }
    else if op.CopyLocked? || op.CopyHashing? { c := CopyAdvances(md5, d, locks, i, op); }
    else if op.JoinLocked? || op.JoinWriting? { c := JoinAdvances(md5, d, locks, i, op); }
    else { c := PutAdvances(md5, d, locks, op); }
  }

  /** A request makes `calls`, all of which take it forward, except that it fails where its file is gone. */
  function After(md5: Md5, s: Sys, i: Id, calls: seq<Call>): Option<Sys>
    decreases |calls|
  {
    if calls == [] then Some(s)
    else if i in s.ops && Enabled(s, Take(i, calls[0]))
            && (Advances(calls[0]) || (calls[0].Fail? && Blocked(s.disk, s.ops[i])))
    then After(md5, Do(md5, s, Take(i, calls[0])), i, calls[1..])
    else None
  }

  lemma NextOfHolder(md5: Md5, s: Sys, i: Id, c: Call, t: Sys)
    requires Inv(md5, s) && Enabled(s, Take(i, c)) && Holds(s.ops[i])
    requires t == Do(md5, s, Take(i, c))
    ensures Inv(md5, t) && i in t.ops && t.ops[i].loc == s.ops[i].loc
    ensures t.ops[i] == Next(md5, s.disk, s.locks, s.ops[i], c)
    ensures if Holds(t.ops[i]) then HasLock(t.locks, i, s.ops[i].loc) else s.ops[i].loc !in t.locks
  {
    DoOk(md5, s, Take(i, c));
    assert OpInv(md5, s.disk, i, s.ops[i]) && HasLock(s.locks, i, s.ops[i].loc);
    CallOk(md5, s.disk, s.locks, i, s.ops[i], c, t.ops[i], t.disk);
  }

  lemma HolderStep(md5: Md5, s: Sys, i: Id) returns (c: Call, t: Sys)
    requires Inv(md5, s) && i in s.ops && Holds(s.ops[i])
    ensures Enabled(s, Take(i, c)) && t == Do(md5, s, Take(i, c))
    ensures Advances(c) || (c.Fail? && Blocked(s.disk, s.ops[i]))
    ensures Inv(md5, t) && i in t.ops && t.ops[i].loc == s.ops[i].loc && Closer(s.ops[i], t.ops[i])
    ensures !Holds(t.ops[i]) ==> s.ops[i].loc !in t.locks
  {
    assert OpInv(md5, s.disk, i, s.ops[i]);
    c := Fail;
    if !Blocked(s.disk, s.ops[i]) { c := HolderAdvances(md5, s.disk, s.locks, i, s.ops[i]); }
    t := Do(md5, s, Take(i, c));
    NextOfHolder(md5, s, i, c, t);
  }

  lemma {:induction false} HolderFinishes(md5: Md5, s: Sys, i: Id) returns (calls: seq<Call>)
    requires Inv(md5, s) && i in s.ops && Holds(s.ops[i])
    ensures After(md5, s, i, calls).Some? && s.ops[i].loc !in After(md5, s, i, calls).value.locks
    decreases Stage(s.ops[i]), Amount(s.ops[i])
  {
    var c, t := HolderStep(md5, s, i);
    if Holds(t.ops[i]) {
      var rest := HolderFinishes(md5, t, i);
      calls := [c] + rest;
      assert calls[1..] == rest;
    } else {
      calls := [c];
      assert After(md5, t, i, calls[1..]) == Some(t);
    }
  }

  /** Every lock that is taken has an unfinished holder that is at work on just that object; and the holder's
      own calls, which need no other lock and all take it forward, give the lock back. It has to fail only
      where the file it needs is gone. */
  lemma LockIsGivenBack(md5: Md5, acts: seq<Act>, loc: Loc, s: Sys) returns (calls: seq<Call>)
    requires Run(md5, acts) == Some(s) && loc in s.locks
    ensures var i := s.locks[loc];
      && i in s.ops && !Ended(s.ops[i]) && Holds(s.ops[i]) && s.ops[i].loc == loc
      && After(md5, s, i, calls).Some? && loc !in After(md5, s, i, calls).value.locks
  {
    Safety(md5, acts);
    assert Guards(s, s.locks[loc], loc);
    calls := HolderFinishes(md5, s, s.locks[loc]);
  }

  // ---- the lock table as the server keeps it ----

  /** A table keyed by lock names holds what the model's table keyed by objects holds. */
  ghost predicate SameLocks(names: map<Bytes, Id>, locks: map<Loc, Id>) {
    forall loc: Loc :: 0 !in loc.bucket ==>
      && (loc in locks <==> LockName(loc) in names)
      && (loc in locks ==> names[LockName(loc)] == locks[loc])
  }

  /** Taking the lock of an object and giving back those of a request do the same to both tables: since no
      bucket name contains NUL, no two objects share an entry. */
  lemma LockTableByName(names: map<Bytes, Id>, locks: map<Loc, Id>, loc: Loc, i: Id)
    requires SameLocks(names, locks) && 0 !in loc.bucket
    ensures SameLocks(names[LockName(loc) := i], locks[loc := i])
    ensures SameLocks(map n | n in names && names[n] != i :: names[n], Released(locks, i))
  {
    forall other: Loc | 0 !in other.bucket
      ensures LockName(other) == LockName(loc) <==> other == loc
    {
      if LockName(other) == LockName(loc) { LockNameInjective(other, loc); }
    }
  }
}
