/** What the install protocol guarantees over whole runs: refinement of an atomic map from objects to
    versions, the outcome of every request, the versions that reads return, and garbage collection. */
module InstallRuns {
  import opened ByteStrings
  import opened Objects
  import opened Install
  import opened InstallSafety
  import opened InstallSteps
  import opened InstallInvariant

  // ---- runs ----

  /** The state after a list of acts, if each of them could happen. */
  function Run(md5: Md5, acts: seq<Act>): Option<Sys> {
    if acts == [] then Some(EMPTY)
    else
      match Run(md5, acts[..|acts| - 1])
      case None => None
      case Some(s) => if Enabled(s, acts[|acts| - 1]) then Some(Do(md5, s, acts[|acts| - 1])) else None
  }

  /** The last act of a run, and the state it started from. */
  lemma LastAct(md5: Md5, acts: seq<Act>) returns (s: Sys, a: Act)
    requires acts != [] && Run(md5, acts).Some?
    ensures a == acts[|acts| - 1] && Run(md5, acts[..|acts| - 1]) == Some(s)
    ensures Enabled(s, a) && Run(md5, acts) == Some(Do(md5, s, a))
  {
    s := Run(md5, acts[..|acts| - 1]).value;
    a := acts[|acts| - 1];
  }

  /** The invariant holds in every reachable state. */
  lemma {:induction false} Safety(md5: Md5, acts: seq<Act>)
    requires Run(md5, acts).Some?
    ensures Inv(md5, Run(md5, acts).value)
  {
    if acts == [] {
      InitInv(md5);
    } else {
      var s, a := LastAct(md5, acts);
      Safety(md5, acts[..|acts| - 1]);
      DoOk(md5, s, a);
    }
  }

  /** In every reachable state, whatever puts, copies, deletes, crashes and cancellations led there, a
      metadata file names a data file in its own directory, of the recorded size and a matching ETag. */
  lemma MetadataNamesItsData(md5: Md5, acts: seq<Act>, s: Sys, loc: Loc)
    requires Run(md5, acts) == Some(s) && loc in s.disk.meta
    ensures var m := s.disk.meta[loc];
      && m.key == loc.key
      && Content(s.disk, loc, m.data).Some?
      && |Content(s.disk, loc, m.data).value| == m.size
      && EtagOk(md5, m.etag, Content(s.disk, loc, m.data).value)
  {
    Safety(md5, acts);
    CurrentIsKnown(md5, s.disk, loc);
    assert MetaOk(md5, s.disk, loc);
  }

  // ---- refinement of an atomic map ----

  /** The objects a client can see. */
  function Abs(d: Disk): map<Loc, Version> {
    map loc | loc in d.meta :: Current(d, loc)
  }

  /** A put (`Some`) or a delete (`None`) by request `by`, taking effect at once. */
  datatype Event = Event(who: Id, loc: Loc, version: Option<Version>)

  /** The linearization points: the rename and the unlink of `meta.json`. */
  function EventOf(s: Sys, a: Act): seq<Event>
    requires Enabled(s, a)
  {
    if a.Take? && a.call.PublishMeta? then
      var op := s.ops[a.i];
      var e := MetaRenamed(s.disk, Entry(op.loc, op.metaTmp));
      [Event(a.i, op.loc, Some(Current(e, op.loc)))]
    else if a.Take? && a.call.DelMeta? then
      [Event(a.i, s.ops[a.i].loc, None)]
    else []
  }

  function Apply(objects: map<Loc, Version>, e: Event): map<Loc, Version> {
    if e.version.Some? then objects[e.loc := e.version.value] else objects - {e.loc}
  }

  function Replay(objects: map<Loc, Version>, events: seq<Event>): map<Loc, Version> {
    if events == [] then objects
    else Apply(Replay(objects, events[..|events| - 1]), events[|events| - 1])
  }

  /** Under the invariant the visible objects depend only on the metadata and on what was published. */
  lemma AbsFromSealed(md5: Md5, d: Disk)
    requires DiskOk(md5, d)
    ensures forall loc :: loc in d.meta ==>
      d.meta[loc].data in d.sealed && Abs(d)[loc] == VersionOf(d.meta[loc], d.sealed[d.meta[loc].data])
  {
    forall loc | loc in d.meta
      ensures d.meta[loc].data in d.sealed && Abs(d)[loc] == VersionOf(d.meta[loc], d.sealed[d.meta[loc].data])
    {
      CurrentIsKnown(md5, d, loc);
    }
  }

  lemma AbsSame(md5: Md5, d: Disk, e: Disk)
    requires DiskOk(md5, d) && DiskOk(md5, e) && e.meta == d.meta && e.sealed == d.sealed
    ensures Abs(e) == Abs(d)
  {
    AbsFromSealed(md5, d);
    AbsFromSealed(md5, e);
  }

  ghost predicate PublishesNothing(d: Disk, e: Disk) {
    e.meta == d.meta && e.sealed == d.sealed
  }

  lemma PutPublishesNothing(d: Disk, locks: map<Loc, Id>, i: Id, op: Op, c: Call)
    requires CanTake(d, locks, op, c) && IsPutCall(c)
    ensures PublishesNothing(d, PutDisk(d, locks, i, op, c))
  {}

  lemma CopyPublishesNothing(d: Disk, locks: map<Loc, Id>, i: Id, op: Op, c: Call)
    requires CanTake(d, locks, op, c) && IsCopyCall(c)
    ensures PublishesNothing(d, CopyDisk(d, locks, i, op, c))
  {}

  lemma JoinPublishesNothing(d: Disk, locks: map<Loc, Id>, i: Id, op: Op, c: Call)
    requires CanTake(d, locks, op, c) && IsJoinCall(c)
    ensures PublishesNothing(d, JoinDisk(d, locks, i, op, c))
  {}

  lemma SwapPublishesNothing(d: Disk, locks: map<Loc, Id>, i: Id, op: Op, c: Call)
    requires CanTake(d, locks, op, c) && IsSwapCall(c) && !c.PublishMeta?
    ensures PublishesNothing(d, SwapDisk(d, locks, i, op, c))
  {}

  lemma DelPublishesNothing(d: Disk, locks: map<Loc, Id>, i: Id, op: Op, c: Call)
    requires CanTake(d, locks, op, c) && IsDelCall(c) && !c.DelMeta?
    ensures PublishesNothing(d, DelDisk(d, locks, op, c))
  {}

  lemma OnlySwapsPublish(d: Disk, locks: map<Loc, Id>, i: Id, op: Op, c: Call, e: Disk)
    requires CanTake(d, locks, op, c) && !c.PublishMeta? && !c.DelMeta? && e == NextDisk(d, locks, i, op, c)
    ensures PublishesNothing(d, e)
  {
    if IsPutCall(c) { PutPublishesNothing(d, locks, i, op, c); }
    else if IsCopyCall(c) { CopyPublishesNothing(d, locks, i, op, c); }
    else if IsJoinCall(c) { JoinPublishesNothing(d, locks, i, op, c); }
    else if IsSwapCall(c) { SwapPublishesNothing(d, locks, i, op, c); }
    else if IsDelCall(c) { DelPublishesNothing(d, locks, i, op, c); }
  }

  lemma PublishRefines(md5: Md5, d: Disk, e: Disk, i: Id, goal: Goal, t: Entry, m: Meta)
    requires DiskOk(md5, d) && DiskOk(md5, e) && t in d.metaTmp && e == MetaRenamed(d, t)
    requires d.metaTmp[t] == m && InPlace(md5, d, i, t.loc, goal, m)
    ensures Abs(e) == Abs(d)[t.loc := Current(e, t.loc)]
  {
    MetaRenamedShape(md5, d, i, goal, t, m);
    AbsFromSealed(md5, d);
    AbsFromSealed(md5, e);
  }

  lemma RemovalRefines(md5: Md5, d: Disk, e: Disk, loc: Loc)
    requires DiskOk(md5, d) && DiskOk(md5, e) && e == MetaRemoved(d, loc)
    ensures Abs(e) == Abs(d) - {loc}
  {
    AbsFromSealed(md5, d);
    AbsFromSealed(md5, e);
  }

  lemma NothingChanges(md5: Md5, s: Sys, a: Act, t: Sys)
    requires DiskOk(md5, s.disk) && DiskOk(md5, t.disk) && Enabled(s, a) && t == Do(md5, s, a)
    requires a.Take? ==> !a.call.PublishMeta? && !a.call.DelMeta?
    ensures Abs(t.disk) == Abs(s.disk)
  {
    if a.Take? {
      OnlySwapsPublish(s.disk, s.locks, a.i, s.ops[a.i], a.call, t.disk);
    }
    AbsSame(md5, s.disk, t.disk);
  }

  lemma PublishShape(md5: Md5, s: Sys, i: Id, t: Sys)
    requires Enabled(s, Take(i, PublishMeta)) && t == Do(md5, s, Take(i, PublishMeta))
    ensures var op := s.ops[i];
      && op.Staged? && Entry(op.loc, op.metaTmp) in s.disk.metaTmp
      && t.disk == MetaRenamed(s.disk, Entry(op.loc, op.metaTmp))
      && t.ops == s.ops[i := Published(op.loc, op.goal, op.meta)]
  {}

  lemma RemovalShape(md5: Md5, s: Sys, i: Id, t: Sys)
    requires Enabled(s, Take(i, DelMeta)) && t == Do(md5, s, Take(i, DelMeta))
    ensures var op := s.ops[i];
      && op.DelKnown? && t.disk == MetaRemoved(s.disk, op.loc)
      && t.ops == s.ops[i := if op.data.Some? then DelGone(op.loc, op.data.value) else DelDone(op.loc, true)]
  {}

  lemma PublishStep(md5: Md5, s: Sys, i: Id, t: Sys)
    requires Enabled(s, Take(i, PublishMeta)) && t == Do(md5, s, Take(i, PublishMeta))
    requires DiskOk(md5, s.disk) && DiskOk(md5, t.disk) && OpInv(md5, s.disk, i, s.ops[i])
    ensures s.ops[i].Staged? && s.ops[i].loc in t.disk.meta
    ensures Abs(t.disk) == Abs(s.disk)[s.ops[i].loc := Current(t.disk, s.ops[i].loc)]
  {
    PublishShape(md5, s, i, t);
    var op := s.ops[i];
    PublishRefines(md5, s.disk, t.disk, i, op.goal, Entry(op.loc, op.metaTmp), op.meta);
  }

  lemma RemovalStep(md5: Md5, s: Sys, i: Id, t: Sys)
    requires Enabled(s, Take(i, DelMeta)) && t == Do(md5, s, Take(i, DelMeta))
    requires DiskOk(md5, s.disk) && DiskOk(md5, t.disk)
    ensures Abs(t.disk) == Abs(s.disk) - {s.ops[i].loc}
  {
    RemovalShape(md5, s, i, t);
    RemovalRefines(md5, s.disk, t.disk, s.ops[i].loc);
  }

  lemma PublishStepRefines(md5: Md5, s: Sys, i: Id, t: Sys)
    requires Enabled(s, Take(i, PublishMeta)) && t == Do(md5, s, Take(i, PublishMeta))
    requires DiskOk(md5, s.disk) && DiskOk(md5, t.disk) && OpInv(md5, s.disk, i, s.ops[i])
    ensures Abs(t.disk) == Replay(Abs(s.disk), EventOf(s, Take(i, PublishMeta)))
  {
    PublishShape(md5, s, i, t);
    PublishStep(md5, s, i, t);
    ReplayOne(Abs(s.disk), EventOf(s, Take(i, PublishMeta))[0]);
  }

  lemma RemovalStepRefines(md5: Md5, s: Sys, i: Id, t: Sys)
    requires Enabled(s, Take(i, DelMeta)) && t == Do(md5, s, Take(i, DelMeta))
    requires DiskOk(md5, s.disk) && DiskOk(md5, t.disk)
    ensures Abs(t.disk) == Replay(Abs(s.disk), EventOf(s, Take(i, DelMeta)))
  {
    RemovalStep(md5, s, i, t);
    ReplayOne(Abs(s.disk), EventOf(s, Take(i, DelMeta))[0]);
  }

  lemma QuietStepRefines(md5: Md5, s: Sys, a: Act, t: Sys)
    requires DiskOk(md5, s.disk) && DiskOk(md5, t.disk) && Enabled(s, a) && t == Do(md5, s, a)
    requires a.Take? ==> !a.call.PublishMeta? && !a.call.DelMeta?
    ensures EventOf(s, a) == [] && Abs(t.disk) == Replay(Abs(s.disk), [])
  {
    NothingChanges(md5, s, a, t);
  }

  /** One step of the protocol is one step of the atomic map, or none at all. A crash is none. */
  lemma StepRefines(md5: Md5, s: Sys, a: Act, t: Sys)
    requires Inv(md5, s) && Enabled(s, a) && t == Do(md5, s, a)
    ensures |EventOf(s, a)| <= 1
    ensures Abs(t.disk) == Replay(Abs(s.disk), EventOf(s, a))
  {
    DoOk(md5, s, a);
    if a.Take? && a.call.PublishMeta? {
      assert OpInv(md5, s.disk, a.i, s.ops[a.i]);
      PublishStepRefines(md5, s, a.i, t);
    } else if a.Take? && a.call.DelMeta? {
      RemovalStepRefines(md5, s, a.i, t);
    } else {
      QuietStepRefines(md5, s, a, t);
    }
  }

  lemma ReplayOne(objects: map<Loc, Version>, e: Event)
    ensures Replay(objects, [e]) == Apply(objects, e)
  {
    assert [e][..0] == [];
  }

  lemma {:induction false} ReplayAppend(objects: map<Loc, Version>, a: seq<Event>, b: seq<Event>)
    ensures Replay(objects, a + b) == Replay(Replay(objects, a), b)
  {
    if b == [] {
      assert a + b == a;
    } else {
      var n := |b| - 1;
      assert (a + b)[..|a + b| - 1] == a + b[..n];
      ReplayAppend(objects, a, b[..n]);
    }
  }

  /** The puts and deletes of a run, in the order in which they took effect. */
  function Events(md5: Md5, acts: seq<Act>): seq<Event>
    requires Run(md5, acts).Some?
  {
    if acts == [] then []
    else
      var before := acts[..|acts| - 1];
      Events(md5, before) + EventOf(Run(md5, before).value, acts[|acts| - 1])
  }

  /** The files always show the result of the atomic puts and deletes so far, and nothing else. */
  lemma {:induction false} RunRefines(md5: Md5, acts: seq<Act>)
    requires Run(md5, acts).Some?
    ensures Abs(Run(md5, acts).value.disk) == Replay(map[], Events(md5, acts))
  {
    if acts == [] {
      assert Abs(EMPTY.disk) == map[];
    } else {
      var s, a := LastAct(md5, acts);
      var before := acts[..|acts| - 1];
      RunRefines(md5, before);
      Safety(md5, before);
      StepRefines(md5, s, a, Do(md5, s, a));
      ReplayAppend(map[], Events(md5, before), EventOf(s, a));
    }
  }

  // ---- the outcome of each request ----

  function EventsBy(i: Id, events: seq<Event>): seq<Event> {
    if events == [] then []
    else
      var last := events[|events| - 1];
      EventsBy(i, events[..|events| - 1]) + (if last.who == i then [last] else [])
  }

  lemma EventsByAppend(i: Id, a: seq<Event>, b: seq<Event>)
    requires |b| <= 1
    ensures EventsBy(i, a + b) == EventsBy(i, a) + EventsBy(i, b)
  {
    if b == [] {
      assert a + b == a;
    } else {
      assert (a + b)[..|a + b| - 1] == a;
      assert b[..0] == [];
    }
  }

  predicate IsOut(op: Op) {
    op.Published? || op.Sweeping? || op.InstallDone?
  }

  predicate IsGone(op: Op) {
    op.DelGone? || (op.DelDone? && op.removed)
  }

  function Effect(d: Disk, i: Id, op: Op): seq<Event> {
    if IsOut(op) then
      [Event(i, op.loc, Some(VersionOf(op.meta, if op.meta.data in d.sealed then d.sealed[op.meta.data] else [])))]
    else if IsGone(op) then [Event(i, op.loc, None)]
    else []
  }

  /** What a request has done to the visible objects, as its program counter tells. */
  function Made(d: Disk, i: Id, op: Op): seq<Event> {
    Effect(d, i, if op.Lost? then op.was else op)
  }

  function MadeBy(s: Sys, i: Id): seq<Event> {
    if i in s.ops then Made(s.disk, i, s.ops[i]) else []
  }

  lemma OutIsSealed(md5: Md5, d: Disk, i: Id, op: Op)
    requires OpInv(md5, d, i, op)
    ensures IsOut(op) ==> op.meta.data in d.sealed
    ensures op.Lost? && IsOut(op.was) ==> op.was.meta.data in d.sealed
  {}

  lemma MadeStays(md5: Md5, d: Disk, e: Disk, i: Id, j: Id, op: Op)
    requires KeepsNames(d, e, i) && OpInv(md5, d, j, op)
    ensures Made(e, j, op) == Made(d, j, op)
  {
    OutIsSealed(md5, d, j, op);
  }

  lemma EffectBySealed(d: Disk, e: Disk, i: Id, op: Op)
    requires e.sealed == d.sealed
    ensures Made(e, i, op) == Made(d, i, op)
  {}

  /** Away from the linearization points a request keeps what it has made. */
  ghost predicate SameEffect(op: Op, next: Op) {
    && (IsOut(next) <==> IsOut(op))
    && (IsOut(op) ==> next.loc == op.loc && next.meta == op.meta)
    && (IsGone(next) <==> IsGone(op))
    && (IsGone(op) ==> next.loc == op.loc)
    && !op.Lost? && !next.Lost?
  }

  lemma SameEffectMade(d: Disk, e: Disk, i: Id, op: Op, next: Op)
    requires e.sealed == d.sealed && SameEffect(op, next)
    ensures Made(e, i, next) == Made(d, i, op)
  {}

  lemma PutMakesNothing(md5: Md5, d: Disk, locks: map<Loc, Id>, op: Op, c: Call, next: Op)
    requires CanTake(d, locks, op, c) && IsPutCall(c) && next == Next(md5, d, locks, op, c)
    ensures SameEffect(op, next)
  {}

  lemma CopyMakesNothing(md5: Md5, d: Disk, locks: map<Loc, Id>, op: Op, c: Call, next: Op)
    requires CanTake(d, locks, op, c) && IsCopyCall(c) && next == Next(md5, d, locks, op, c)
    ensures SameEffect(op, next)
  {}

  lemma JoinMakesNothing(md5: Md5, d: Disk, locks: map<Loc, Id>, op: Op, c: Call, next: Op)
    requires CanTake(d, locks, op, c) && IsJoinCall(c) && next == Next(md5, d, locks, op, c)
    ensures SameEffect(op, next)
  {}

  predicate IsGcCall(c: Call) {
    c.GcSkip? || c.GcList? || c.GcUnlink? || c.GcEnd?
  }

  lemma GcMakesNothing(md5: Md5, d: Disk, locks: map<Loc, Id>, op: Op, c: Call, next: Op)
    requires CanTake(d, locks, op, c) && IsGcCall(c) && next == Next(md5, d, locks, op, c)
    ensures SameEffect(op, next)
  {}

  lemma MetaMakesNothing(md5: Md5, d: Disk, locks: map<Loc, Id>, op: Op, c: Call, next: Op)
    requires CanTake(d, locks, op, c) && IsSwapCall(c) && !IsGcCall(c) && !c.PublishMeta?
    requires next == Next(md5, d, locks, op, c)
    ensures SameEffect(op, next)
  {}

  lemma DelMakesNothing(md5: Md5, d: Disk, locks: map<Loc, Id>, op: Op, c: Call, next: Op)
    requires CanTake(d, locks, op, c) && IsDelCall(c) && !c.DelMeta? && next == Next(md5, d, locks, op, c)
    ensures SameEffect(op, next)
  {}

  lemma GetMakesNothing(md5: Md5, d: Disk, locks: map<Loc, Id>, op: Op, c: Call, next: Op)
    requires CanTake(d, locks, op, c) && IsGetCall(c) && next == Next(md5, d, locks, op, c)
    ensures SameEffect(op, next)
  {}

  lemma LifeMakesNothing(md5: Md5, d: Disk, locks: map<Loc, Id>, op: Op, c: Call, next: Op)
    requires CanTake(d, locks, op, c) && (c.Acquire? || c.Fail?) && next == Next(md5, d, locks, op, c)
    ensures SameEffect(op, next)
  {}

  lemma QuietCallEffect(md5: Md5, d: Disk, locks: map<Loc, Id>, op: Op, c: Call, next: Op)
    requires CanTake(d, locks, op, c) && !c.PublishMeta? && !c.DelMeta? && !c.Cancel?
    requires next == Next(md5, d, locks, op, c)
    ensures SameEffect(op, next)
  {
    if IsPutCall(c) { PutMakesNothing(md5, d, locks, op, c, next); }
    else if IsCopyCall(c) { CopyMakesNothing(md5, d, locks, op, c, next); }
    else if IsJoinCall(c) { JoinMakesNothing(md5, d, locks, op, c, next); }
    else if IsGcCall(c) { GcMakesNothing(md5, d, locks, op, c, next); }
    else if IsSwapCall(c) { MetaMakesNothing(md5, d, locks, op, c, next); }
    else if IsDelCall(c) { DelMakesNothing(md5, d, locks, op, c, next); }
    else if IsGetCall(c) { GetMakesNothing(md5, d, locks, op, c, next); }
    else { LifeMakesNothing(md5, d, locks, op, c, next); }
  }

  lemma QuietCallMade(md5: Md5, d: Disk, locks: map<Loc, Id>, i: Id, op: Op, c: Call, next: Op, e: Disk)
    requires CanTake(d, locks, op, c) && !c.PublishMeta? && !c.DelMeta?
    requires next == Next(md5, d, locks, op, c) && e == NextDisk(d, locks, i, op, c)
    ensures Made(e, i, next) == Made(d, i, op)
  {
    OnlySwapsPublish(d, locks, i, op, c, e);
    if c.Cancel? {
      assert next == Lost(op.loc, op) && !op.Lost?;
    } else {
      QuietCallEffect(md5, d, locks, op, c, next);
      SameEffectMade(d, e, i, op, next);
    }
  }

  lemma PublishMade(md5: Md5, d: Disk, e: Disk, i: Id, op: Op)
    requires At(md5, d, i, op) && op.Staged? && Entry(op.loc, op.metaTmp) in d.metaTmp
    requires e == MetaRenamed(d, Entry(op.loc, op.metaTmp)) && DiskOk(md5, e)
    ensures Made(d, i, op) == []
    ensures Made(e, i, Published(op.loc, op.goal, op.meta)) == [Event(i, op.loc, Some(Current(e, op.loc)))]
  {
    CurrentIsKnown(md5, e, op.loc);
  }

  lemma OwnPublishMade(md5: Md5, s: Sys, i: Id, t: Sys)
    requires Enabled(s, Take(i, PublishMeta)) && t == Do(md5, s, Take(i, PublishMeta))
    requires DiskOk(md5, s.disk) && DiskOk(md5, t.disk) && OpInv(md5, s.disk, i, s.ops[i])
    ensures MadeBy(t, i) == MadeBy(s, i) + EventOf(s, Take(i, PublishMeta))
  {
    PublishShape(md5, s, i, t);
    PublishMade(md5, s.disk, t.disk, i, s.ops[i]);
  }

  lemma OwnRemovalMade(md5: Md5, s: Sys, i: Id, t: Sys)
    requires Enabled(s, Take(i, DelMeta)) && t == Do(md5, s, Take(i, DelMeta))
    ensures MadeBy(t, i) == MadeBy(s, i) + EventOf(s, Take(i, DelMeta))
  {
    RemovalShape(md5, s, i, t);
  }

  lemma OwnQuietMade(md5: Md5, s: Sys, i: Id, c: Call, t: Sys)
    requires Enabled(s, Take(i, c)) && t == Do(md5, s, Take(i, c)) && !c.PublishMeta? && !c.DelMeta?
    ensures MadeBy(t, i) == MadeBy(s, i)
  {
    QuietCallMade(md5, s.disk, s.locks, i, s.ops[i], c, t.ops[i], t.disk);
  }

  lemma OwnStepMade(md5: Md5, s: Sys, i: Id, c: Call, t: Sys)
    requires Enabled(s, Take(i, c)) && t == Do(md5, s, Take(i, c))
    requires DiskOk(md5, s.disk) && DiskOk(md5, t.disk) && OpInv(md5, s.disk, i, s.ops[i])
    ensures MadeBy(t, i) == MadeBy(s, i) + EventOf(s, Take(i, c))
  {
    if c.PublishMeta? {
      OwnPublishMade(md5, s, i, t);
    } else if c.DelMeta? {
      OwnRemovalMade(md5, s, i, t);
    } else {
      OwnQuietMade(md5, s, i, c, t);
    }
  }

  lemma OtherStepMade(md5: Md5, s: Sys, j: Id, c: Call, i: Id, t: Sys)
    requires i != j && Inv(md5, s) && Enabled(s, Take(j, c)) && t == Do(md5, s, Take(j, c))
    ensures MadeBy(t, i) == MadeBy(s, i)
  {
    var op := s.ops[j];
    assert At(md5, s.disk, j, op);
    CallOk(md5, s.disk, s.locks, j, op, c, t.ops[j], t.disk);
    assert KeepsNames(s.disk, t.disk, j);
    if i in s.ops {
      MadeStays(md5, s.disk, t.disk, j, i, s.ops[i]);
    }
  }

  lemma StepMade(md5: Md5, s: Sys, a: Act, i: Id, t: Sys)
    requires Inv(md5, s) && Enabled(s, a) && t == Do(md5, s, a)
    ensures MadeBy(t, i) == MadeBy(s, i) + EventsBy(i, EventOf(s, a))
  {
    DoOk(md5, s, a);
    if a.Take? {
      EventsByOne(i, a.i, EventOf(s, a));
      assert OpInv(md5, s.disk, a.i, s.ops[a.i]);
      if a.i == i { OwnStepMade(md5, s, i, a.call, t); } else { OtherStepMade(md5, s, a.i, a.call, i, t); }
    } else {
      assert EventOf(s, a) == [];
      if i in s.ops {
        assert OpInv(md5, s.disk, i, s.ops[i]);
        EffectBySealed(s.disk, t.disk, i, s.ops[i]);
      }
    }
  }

  lemma EventsByOne(i: Id, j: Id, events: seq<Event>)
    requires |events| <= 1 && (events != [] ==> events[0].who == j)
    ensures EventsBy(i, events) == if i == j then events else []
  {
    if events != [] { assert events[..0] == []; }
  }

  /** Exactly what a request's program counter says it did is what it did: at most one atomic put or
      delete, one if it got past its linearization point, none if it failed or was lost before it. */
  lemma {:induction false} RunMade(md5: Md5, acts: seq<Act>, i: Id)
    requires Run(md5, acts).Some?
    ensures EventsBy(i, Events(md5, acts)) == MadeBy(Run(md5, acts).value, i)
  {
    if acts != [] {
      var s, a := LastAct(md5, acts);
      var before := acts[..|acts| - 1];
      RunMade(md5, before, i);
      Safety(md5, before);
      StepMade(md5, s, a, i, Do(md5, s, a));
      EventsByAppend(i, Events(md5, before), EventOf(s, a));
    }
  }
}
