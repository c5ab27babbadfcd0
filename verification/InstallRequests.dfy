/** What each request asked for when it arrived, what it has learned since, and what came of it: the outcome
    of puts, copies, completions and deletes, and the versions that reads return. */
module InstallRequests {
  import opened ByteStrings
  import opened Objects
  import opened Install
  import opened InstallSafety
  import opened InstallSteps
  import opened InstallInvariant
  import opened InstallRuns

  // ---- the story of a request ----

  /** A request as it arrived, the body bytes it was sent, the version it read, and whether its delete found
      the object. */
  datatype Story = Story(request: Op, body: Bytes, seen: Option<Version>, found: Option<bool>)

  /** The object whose metadata a request reads. */
  function From(request: Op): Loc {
    if request.CopyNew? then request.src else request.loc
  }

  predicate ReadsMeta(c: Call) {
    c.GetMeta? || c.CopyRead?
  }

  /** What call `c` on disk `d` adds to the story. */
  function Told(t: Story, d: Disk, c: Call): Story {
    Story(t.request,
          if c.PutChunk? then t.body + c.chunk else t.body,
          if ReadsMeta(c) && From(t.request) in d.meta then Some(Current(d, From(t.request))) else t.seen,
          if c.DelProbe? then Some(t.request.loc in d.meta) else t.found)
  }

  function StoryOf(md5: Md5, acts: seq<Act>, i: Id): Option<Story>
    requires Run(md5, acts).Some?
  {
    if acts == [] then None
    else
      var a, init := acts[|acts| - 1], acts[..|acts| - 1];
      var before := StoryOf(md5, init, i);
      if a.Arrive? && a.i == i then Some(Story(a.op, [], None, None))
      else if a.Take? && a.i == i && before.Some? then Some(Told(before.value, Run(md5, init).value.disk, a.call))
      else before
  }

  predicate HasGoal(op: Op) {
    op.Ready? || op.Staged? || IsOut(op)
  }

  predicate PutTells(t: Story, op: Op)
    requires t.request.PutNew?
  {
    if op.PutNew? || op.PutLocked? then op.attrs == t.request.attrs && t.body == []
    else if op.PutStreaming? || op.PutSynced? then op.attrs == t.request.attrs && op.body == t.body
    else if HasGoal(op) then op.goal == Upload(t.body, t.request.attrs)
    else op.PutBroken? || op.Undoing? || op.Failed?
  }

  predicate CopyTells(t: Story, op: Op)
    requires t.request.CopyNew?
  {
    if op.CopyNew? then op == t.request
    else if op.CopyKnown? || op.CopyLocked? then
      op.src == t.request.src && op.replace == t.request.replace && t.seen == Some(op.seen)
    else if op.CopyHashing? then t.request.replace == Some(op.given) && t.seen == Some(op.seen)
    else if HasGoal(op) then t.seen.Some? && op.goal == Duplicate(t.seen.value, t.request.replace)
    else op.Undoing? || op.Failed?
  }

  predicate JoinTells(t: Story, op: Op)
    requires t.request.JoinNew?
  {
    if op.JoinNew? || op.JoinLocked? || op.JoinWriting? then
      op.attrs == t.request.attrs && op.parts == t.request.parts
    else if HasGoal(op) then op.goal == Assembly(t.request.parts, t.request.attrs)
    else op.Undoing? || op.Failed?
  }

  predicate DelTells(t: Story, op: Op) {
    if op.DelPresent? || op.DelKnown? || op.DelGone? then t.found == Some(true)
    else if op.DelDone? then t.found == Some(op.removed)
    else op.DelNew? || op.DelLocked? || op.Failed?
  }

  predicate GetTells(t: Story, op: Op)
    requires t.request.GetNew?
  {
    if op.GetNew? then op == t.request
    else if op.GetKnown? || op.GetStreaming? || op.GetDone? then
      op.start == t.request.start && op.len == t.request.len && t.seen == Some(op.seen)
    else op.Failed?
  }

  /** Program counter `op` agrees with the story. */
  predicate TellsAt(t: Story, op: Op) {
    && op.loc == t.request.loc
    && if t.request.PutNew? then PutTells(t, op)
       else if t.request.CopyNew? then CopyTells(t, op)
       else if t.request.JoinNew? then JoinTells(t, op)
       else if t.request.DelNew? then DelTells(t, op)
       else t.request.GetNew? && GetTells(t, op)
  }

  predicate Tells(t: Story, op: Op) {
    if op.Lost? then op.loc == t.request.loc && TellsAt(t, op.was) else TellsAt(t, op)
  }

  /** The program counter shows what kind of request it is. */
  lemma KindTold(t: Story, op: Op)
    requires TellsAt(t, op)
    ensures op.PutLocked? || op.PutStreaming? || op.PutBroken? || op.PutSynced? ==> t.request.PutNew?
    ensures op.CopyNew? || op.CopyKnown? || op.CopyLocked? || op.CopyHashing? ==> t.request.CopyNew?
    ensures op.JoinLocked? || op.JoinWriting? ==> t.request.JoinNew?
    ensures Deleting(op) ==> t.request.DelNew?
    ensures op.GetNew? || op.GetKnown? || op.GetStreaming? ==> t.request.GetNew?
  {}

  lemma PutCallTells(md5: Md5, d: Disk, locks: map<Loc, Id>, t: Story, op: Op, c: Call, next: Op)
    requires CanTake(d, locks, op, c) && IsPutCall(c) && next == Next(md5, d, locks, op, c) && Tells(t, op)
    ensures Tells(Told(t, d, c), next)
  {
    KindTold(t, op);
  }

  lemma CopyCallTells(md5: Md5, d: Disk, locks: map<Loc, Id>, t: Story, op: Op, c: Call, next: Op)
    requires CanTake(d, locks, op, c) && IsCopyCall(c) && next == Next(md5, d, locks, op, c) && Tells(t, op)
    ensures Tells(Told(t, d, c), next)
  {
    KindTold(t, op);
  }

  lemma JoinCallTells(md5: Md5, d: Disk, locks: map<Loc, Id>, t: Story, op: Op, c: Call, next: Op)
    requires CanTake(d, locks, op, c) && IsJoinCall(c) && next == Next(md5, d, locks, op, c) && Tells(t, op)
    ensures Tells(Told(t, d, c), next)
  {
    KindTold(t, op);
  }

  lemma GoalKept(t: Story, op: Op, next: Op)
    requires TellsAt(t, op) && HasGoal(op) && HasGoal(next) && next.loc == op.loc && next.goal == op.goal
    ensures TellsAt(t, next)
  {}

  lemma GcKeepsGoal(md5: Md5, d: Disk, locks: map<Loc, Id>, op: Op, c: Call, next: Op)
    requires CanTake(d, locks, op, c) && IsGcCall(c) && next == Next(md5, d, locks, op, c)
    ensures HasGoal(op) && HasGoal(next) && next.loc == op.loc && next.goal == op.goal
  {}

  lemma GcCallTells(md5: Md5, d: Disk, locks: map<Loc, Id>, t: Story, op: Op, c: Call, next: Op)
    requires CanTake(d, locks, op, c) && IsGcCall(c) && next == Next(md5, d, locks, op, c) && Tells(t, op)
    ensures Tells(Told(t, d, c), next)
  {
    GcKeepsGoal(md5, d, locks, op, c, next);
    GoalKept(t, op, next);
    assert Told(t, d, c) == t;
  }

  lemma MetaCallTells(md5: Md5, d: Disk, locks: map<Loc, Id>, t: Story, op: Op, c: Call, next: Op)
    requires CanTake(d, locks, op, c) && IsSwapCall(c) && !IsGcCall(c) && next == Next(md5, d, locks, op, c)
    requires Tells(t, op)
    ensures Tells(Told(t, d, c), next)
  {}

  lemma ProbeTells(md5: Md5, d: Disk, locks: map<Loc, Id>, t: Story, op: Op, c: Call, next: Op)
    requires CanTake(d, locks, op, c) && c.DelProbe? && next == Next(md5, d, locks, op, c) && Tells(t, op)
    ensures Tells(Told(t, d, c), next)
  {
    KindTold(t, op);
  }

  lemma RemovalTells(md5: Md5, d: Disk, locks: map<Loc, Id>, t: Story, op: Op, c: Call, next: Op)
    requires CanTake(d, locks, op, c) && IsDelCall(c) && !c.DelProbe? && next == Next(md5, d, locks, op, c)
    requires Tells(t, op)
    ensures Tells(Told(t, d, c), next)
  {
    KindTold(t, op);
  }

  lemma GetMetaTells(md5: Md5, d: Disk, locks: map<Loc, Id>, t: Story, op: Op, c: Call, next: Op)
    requires CanTake(d, locks, op, c) && c.GetMeta? && next == Next(md5, d, locks, op, c) && Tells(t, op)
    ensures Tells(Told(t, d, c), next)
  {
    KindTold(t, op);
  }

  lemma StreamCallTells(md5: Md5, d: Disk, locks: map<Loc, Id>, t: Story, op: Op, c: Call, next: Op)
    requires CanTake(d, locks, op, c) && IsGetCall(c) && !c.GetMeta? && next == Next(md5, d, locks, op, c)
    requires Tells(t, op)
    ensures Tells(Told(t, d, c), next)
  {
    KindTold(t, op);
  }

  lemma LockedTells(t: Story, op: Op)
    requires Waiting(op) && Tells(t, op)
    ensures Tells(t, Locked(op))
  {}

  lemma FailedTells(t: Story, op: Op)
    requires CanFail(op) && Tells(t, op)
    ensures Tells(t, Failed(op.loc))
  {}

  lemma LostTells(t: Story, op: Op)
    requires !Ended(op) && Tells(t, op)
    ensures Tells(t, Lost(op.loc, op))
  {}

  lemma LifeCallTells(md5: Md5, d: Disk, locks: map<Loc, Id>, t: Story, op: Op, c: Call, next: Op)
    requires CanTake(d, locks, op, c) && IsLifeCall(c) && next == Next(md5, d, locks, op, c) && Tells(t, op)
    ensures Tells(Told(t, d, c), next)
  {
    if c.Acquire? { LockedTells(t, op); } else if c.Fail? { FailedTells(t, op); } else { LostTells(t, op); }
  }

  lemma CallTells(md5: Md5, d: Disk, locks: map<Loc, Id>, t: Story, op: Op, c: Call, next: Op)
    requires CanTake(d, locks, op, c) && next == Next(md5, d, locks, op, c) && Tells(t, op)
    ensures Tells(Told(t, d, c), next)
  {
    if IsPutCall(c) { PutCallTells(md5, d, locks, t, op, c, next); }
    else if IsCopyCall(c) { CopyCallTells(md5, d, locks, t, op, c, next); }
    else if IsJoinCall(c) { JoinCallTells(md5, d, locks, t, op, c, next); }
    else if IsGcCall(c) { GcCallTells(md5, d, locks, t, op, c, next); }
    else if IsSwapCall(c) { MetaCallTells(md5, d, locks, t, op, c, next); }
    else if c.DelProbe? { ProbeTells(md5, d, locks, t, op, c, next); }
    else if IsDelCall(c) { RemovalTells(md5, d, locks, t, op, c, next); }
    else if c.GetMeta? { GetMetaTells(md5, d, locks, t, op, c, next); }
    else if IsGetCall(c) { StreamCallTells(md5, d, locks, t, op, c, next); }
    else { LifeCallTells(md5, d, locks, t, op, c, next); }
  }

  lemma OthersTell(t: Story, op: Op)
    requires Tells(t, op)
    ensures Tells(t, LostOp(op))
  {}

  lemma FreshTells(op: Op)
    requires Initial(op)
    ensures Tells(Story(op, [], None, None), op)
  {}

  /** In every reachable state every program counter agrees with the story of its request. */
  lemma {:induction false} RunTells(md5: Md5, acts: seq<Act>, i: Id)
    requires Run(md5, acts).Some?
    ensures var s, t := Run(md5, acts).value, StoryOf(md5, acts, i);
      if i in s.ops then t.Some? && Tells(t.value, s.ops[i]) else t.None?
  {
    if acts != [] {
      var s, a := LastAct(md5, acts);
      RunTells(md5, acts[..|acts| - 1], i);
      var t := StoryOf(md5, acts[..|acts| - 1], i);
      if a.Take? && a.i == i {
        CallTells(md5, s.disk, s.locks, t.value, s.ops[i], a.call, Run(md5, acts).value.ops[i]);
      } else if a.Arrive? && a.i == i {
        FreshTells(a.op);
      } else if i in s.ops {
        OthersTell(t.value, s.ops[i]);
      }
    }
  }

  /** The story is about the one request that arrived under this number. */
  lemma {:induction false} StoryOfArrival(md5: Md5, acts: seq<Act>, i: Id, request: Op)
    requires Run(md5, acts).Some? && Arrive(i, request) in acts
    ensures i in Run(md5, acts).value.ops
    ensures StoryOf(md5, acts, i).Some? && StoryOf(md5, acts, i).value.request == request
  {
    var s, a := LastAct(md5, acts);
    var init := acts[..|acts| - 1];
    if a != Arrive(i, request) {
      assert acts == init + [a];
      StoryOfArrival(md5, init, i, request);
    }
  }

  lemma Arrived(md5: Md5, acts: seq<Act>, i: Id, request: Op, s: Sys)
    requires Run(md5, acts) == Some(s) && Arrive(i, request) in acts
    ensures i in s.ops && StoryOf(md5, acts, i).Some?
    ensures StoryOf(md5, acts, i).value.request == request && Tells(StoryOf(md5, acts, i).value, s.ops[i])
  {
    StoryOfArrival(md5, acts, i, request);
    RunTells(md5, acts, i);
  }

  // ---- outcomes ----

  lemma Reached(md5: Md5, acts: seq<Act>, i: Id, s: Sys)
    requires Run(md5, acts) == Some(s) && i in s.ops
    ensures DiskOk(md5, s.disk) && OpInv(md5, s.disk, i, s.ops[i])
    ensures EventsBy(i, Events(md5, acts)) == Made(s.disk, i, s.ops[i])
  {
    Safety(md5, acts);
    RunMade(md5, acts, i);
  }

  /** The one event stores at `loc` what `goal` asks for. */
  ghost predicate Stores(md5: Md5, loc: Loc, goal: Goal, e: Event) {
    e.loc == loc && e.version.Some? && Meets(md5, loc, goal, e.version.value)
  }

  /** Where a request stands, or stood when it was lost. */
  function Counter(op: Op): Op {
    if op.Lost? then op.was else op
  }

  lemma MadeAsMeant(md5: Md5, d: Disk, i: Id, op: Op)
    requires OpInv(md5, d, i, op)
    ensures var w, made := Counter(op), Made(d, i, op);
      && (IsOut(w) ==> |made| == 1 && made[0].who == i && Stores(md5, w.loc, w.goal, made[0]))
      && (!IsOut(w) ==> made == if IsGone(w) then [Event(i, w.loc, None)] else [])
  {}

  /** Any install that ended well took effect in one step, and stored what its goal asks for. */
  lemma InstallOutcome(md5: Md5, acts: seq<Act>, i: Id, s: Sys)
    requires Run(md5, acts) == Some(s) && i in s.ops && s.ops[i].InstallDone?
    ensures var mine := EventsBy(i, Events(md5, acts));
      |mine| == 1 && mine[0].who == i && Stores(md5, s.ops[i].loc, s.ops[i].goal, mine[0])
  {
    Reached(md5, acts, i, s);
    MadeAsMeant(md5, s.disk, i, s.ops[i]);
  }

  /** The body bytes that request `i` was sent in the course of a run. */
  function Received(i: Id, acts: seq<Act>): Bytes {
    if acts == [] then []
    else
      var last := acts[|acts| - 1];
      Received(i, acts[..|acts| - 1])
        + (if last.Take? && last.i == i && last.call.PutChunk? then last.call.chunk else [])
  }

  lemma {:induction false} StoryBody(md5: Md5, acts: seq<Act>, i: Id)
    requires Run(md5, acts).Some?
    ensures Received(i, acts)
      == if StoryOf(md5, acts, i).Some? then StoryOf(md5, acts, i).value.body else []
  {
    if acts != [] {
      var s, a := LastAct(md5, acts);
      StoryBody(md5, acts[..|acts| - 1], i);
      RunTells(md5, acts[..|acts| - 1], i);
    }
  }

  /** The one event of a request that took effect, or none. */
  lemma TookEffect(md5: Md5, acts: seq<Act>, i: Id, s: Sys)
    requires Run(md5, acts) == Some(s) && i in s.ops
    ensures var w, mine := Counter(s.ops[i]), EventsBy(i, Events(md5, acts));
      && (IsOut(w) ==> |mine| == 1 && mine[0].who == i && Stores(md5, w.loc, w.goal, mine[0]))
      && (!IsOut(w) ==> mine == if IsGone(w) then [Event(i, w.loc, None)] else [])
  {
    Reached(md5, acts, i, s);
    MadeAsMeant(md5, s.disk, i, s.ops[i]);
  }

  /** What a put stores: the bytes it was sent, with their MD5 as ETag and the attributes it came with. */
  function PutEvent(md5: Md5, i: Id, loc: Loc, attrs: Attrs, body: Bytes): Event {
    Event(i, loc, Some(Version(loc.key, |body|, PlainEtag(md5, body), attrs, body)))
  }

  lemma MeetsIsUploaded(md5: Md5, loc: Loc, body: Bytes, attrs: Attrs, e: Event)
    requires Stores(md5, loc, Upload(body, attrs), e)
    ensures e == PutEvent(md5, e.who, loc, attrs, body)
  {}

  lemma PutCounter(t: Story, op: Op)
    requires t.request.PutNew? && Tells(t, op)
    ensures var w := Counter(op);
      w.loc == t.request.loc && !IsGone(w) && (IsOut(w) ==> w.goal == Upload(t.body, t.request.attrs))
  {}

  lemma PutStands(md5: Md5, acts: seq<Act>, i: Id, loc: Loc, attrs: Attrs, s: Sys)
    requires Run(md5, acts) == Some(s) && Arrive(i, PutNew(loc, attrs)) in acts
    ensures i in s.ops
    ensures var w := Counter(s.ops[i]);
      w.loc == loc && !IsGone(w) && (IsOut(w) ==> w.goal == Upload(Received(i, acts), attrs))
  {
    Arrived(md5, acts, i, PutNew(loc, attrs), s);
    StoryBody(md5, acts, i);
    PutCounter(StoryOf(md5, acts, i).value, s.ops[i]);
  }

  /** A put, wherever it stands and however it was interrupted, took effect in one step or not at all: at the
      object it was for it stored exactly the bytes it was sent. It did if it ended well, and did not if it
      failed. */
  lemma PutOutcome(md5: Md5, acts: seq<Act>, i: Id, loc: Loc, attrs: Attrs, s: Sys)
    requires Run(md5, acts) == Some(s) && Arrive(i, PutNew(loc, attrs)) in acts
    ensures i in s.ops
    ensures EventsBy(i, Events(md5, acts))
      == if IsOut(Counter(s.ops[i])) then [PutEvent(md5, i, loc, attrs, Received(i, acts))] else []
  {
    PutStands(md5, acts, i, loc, attrs, s);
    TookEffect(md5, acts, i, s);
    if IsOut(Counter(s.ops[i])) {
      MeetsIsUploaded(md5, loc, Received(i, acts), attrs, EventsBy(i, Events(md5, acts))[0]);
    }
  }

  /** What a completion stores: its parts, one behind the other, with the multipart ETag. */
  function JoinEvent(md5: Md5, i: Id, loc: Loc, attrs: Attrs, parts: seq<Bytes>): Event {
    var body := Concat(parts);
    Event(i, loc, Some(Version(loc.key, |body|, MultipartEtag(md5, parts), attrs, body)))
  }

  lemma MeetsIsAssembled(md5: Md5, loc: Loc, parts: seq<Bytes>, attrs: Attrs, e: Event)
    requires Stores(md5, loc, Assembly(parts, attrs), e)
    ensures e == JoinEvent(md5, e.who, loc, attrs, parts)
  {}

  lemma JoinCounter(t: Story, op: Op)
    requires t.request.JoinNew? && Tells(t, op)
    ensures var w := Counter(op);
      w.loc == t.request.loc && !IsGone(w) && (IsOut(w) ==> w.goal == Assembly(t.request.parts, t.request.attrs))
  {}

  /** A completion, wherever it stands, took effect in one step or not at all. */
  lemma JoinOutcome(md5: Md5, acts: seq<Act>, i: Id, loc: Loc, attrs: Attrs, parts: seq<Bytes>, s: Sys)
    requires Run(md5, acts) == Some(s) && Arrive(i, JoinNew(loc, attrs, parts)) in acts
    ensures i in s.ops
    ensures EventsBy(i, Events(md5, acts))
      == if IsOut(Counter(s.ops[i])) then [JoinEvent(md5, i, loc, attrs, parts)] else []
  {
    Arrived(md5, acts, i, JoinNew(loc, attrs, parts), s);
    JoinCounter(StoryOf(md5, acts, i).value, s.ops[i]);
    TookEffect(md5, acts, i, s);
    if IsOut(Counter(s.ops[i])) {
      MeetsIsAssembled(md5, loc, parts, attrs, EventsBy(i, Events(md5, acts))[0]);
    }
  }

  /** A request that failed changed nothing a client can see. */
  lemma FailureOutcome(md5: Md5, acts: seq<Act>, i: Id, s: Sys)
    requires Run(md5, acts) == Some(s) && i in s.ops && s.ops[i].Failed?
    ensures EventsBy(i, Events(md5, acts)) == []
  {
    TookEffect(md5, acts, i, s);
  }

  // ---- the versions that reads and copies see ----

  /** Act `k` is the metadata read of request `i`, and `v` is what `from` held at that moment. */
  predicate ReadAt(md5: Md5, acts: seq<Act>, k: nat, i: Id, from: Loc, v: Version) {
    && k < |acts| && acts[k].Take? && acts[k].i == i && ReadsMeta(acts[k].call)
    && Run(md5, acts[..k]).Some?
    && var objects := Abs(Run(md5, acts[..k]).value.disk);
       from in objects && objects[from] == v
  }

  lemma ReadNow(md5: Md5, acts: seq<Act>, i: Id, from: Loc, s: Sys, a: Act)
    requires acts != [] && a == acts[|acts| - 1] && a.Take? && a.i == i && ReadsMeta(a.call)
    requires Run(md5, acts[..|acts| - 1]) == Some(s) && from in s.disk.meta
    ensures ReadAt(md5, acts, |acts| - 1, i, from, Current(s.disk, from))
  {}

  lemma ReadBefore(md5: Md5, acts: seq<Act>, init: seq<Act>, k: nat, i: Id, from: Loc, v: Version)
    requires init <= acts && ReadAt(md5, init, k, i, from, v)
    ensures ReadAt(md5, acts, k, i, from, v)
  {
    assert init[..k] == acts[..k];
  }

  lemma {:induction false} SeenWasCurrent(md5: Md5, acts: seq<Act>, i: Id) returns (k: nat)
    requires Run(md5, acts).Some? && StoryOf(md5, acts, i).Some? && StoryOf(md5, acts, i).value.seen.Some?
    ensures var t := StoryOf(md5, acts, i).value;
      ReadAt(md5, acts, k, i, From(t.request), t.seen.value)
  {
    var s, a := LastAct(md5, acts);
    var init := acts[..|acts| - 1];
    var before := StoryOf(md5, init, i);
    var t := StoryOf(md5, acts, i).value;
    if a.Take? && a.i == i && ReadsMeta(a.call) && From(before.value.request) in s.disk.meta {
      k := |acts| - 1;
      ReadNow(md5, acts, i, From(t.request), s, a);
    } else {
      k := SeenWasCurrent(md5, init, i);
      ReadBefore(md5, acts, init, k, i, From(t.request), t.seen.value);
    }
  }

  lemma DeliveredAll(md5: Md5, d: Disk, i: Id, op: Op)
    requires op.GetDone? && OpInv(md5, d, i, op)
    ensures op.out == Slice(op.seen.bytes, op.start, op.len)
  {}

  /** A read that succeeds returns exactly the slice it was asked for, of the one version of its object that
      was current when it read the metadata, whatever was written, deleted or collected meanwhile. */
  lemma ReadReturnsOneVersion(md5: Md5, acts: seq<Act>, i: Id, loc: Loc, start: nat, len: Option<nat>, s: Sys)
    returns (k: nat, v: Version)
    requires Run(md5, acts) == Some(s) && Arrive(i, GetNew(loc, start, len)) in acts
    requires i in s.ops && s.ops[i].GetDone?
    ensures ReadAt(md5, acts, k, i, loc, v) && s.ops[i].out == Slice(v.bytes, start, len)
  {
    Arrived(md5, acts, i, GetNew(loc, start, len), s);
    v := s.ops[i].seen;
    k := SeenWasCurrent(md5, acts, i);
    Reached(md5, acts, i, s);
    DeliveredAll(md5, s.disk, i, s.ops[i]);
  }

  /** A read finds its data file gone only if the version it was to return is no longer the current one. */
  lemma OpenFailsOnlyIfReplaced(md5: Md5, acts: seq<Act>, i: Id, s: Sys)
    requires Run(md5, acts) == Some(s) && i in s.ops && s.ops[i].GetKnown?
    ensures IsMeta(s.disk, s.ops[i].loc, s.ops[i].from) ==> Enabled(s, Take(i, GetOpen))
  {
    Safety(md5, acts);
    if IsMeta(s.disk, s.ops[i].loc, s.ops[i].from) { assert MetaOk(md5, s.disk, s.ops[i].loc); }
  }

  /** What a copy of version `v` under `key` looks like: same bytes; same ETag and attributes too, unless
      they are replaced. */
  function CopiedVersion(md5: Md5, v: Version, key: Bytes, replace: Option<Attrs>): Version {
    match replace
    case None => Version(key, |v.bytes|, v.etag, v.attrs, v.bytes)
    case Some(attrs) => Version(key, |v.bytes|, PlainEtag(md5, v.bytes), attrs, v.bytes)
  }

  lemma MeetsIsCopied(md5: Md5, loc: Loc, v: Version, replace: Option<Attrs>, e: Event)
    requires Stores(md5, loc, Duplicate(v, replace), e)
    ensures e == Event(e.who, loc, Some(CopiedVersion(md5, v, loc.key, replace)))
  {}

  lemma CopyCounter(t: Story, op: Op)
    requires t.request.CopyNew? && Tells(t, op)
    ensures var w := Counter(op);
      && w.loc == t.request.loc && !IsGone(w)
      && (IsOut(w) ==> t.seen.Some? && w.goal == Duplicate(t.seen.value, t.request.replace))
  {}

  /** A copy, wherever it stands, took effect in one step or not at all; if it did, it installed at its
      destination the version of its source that was current when it read the source's metadata. */
  lemma CopyInstallsOneVersion(md5: Md5, acts: seq<Act>, i: Id, src: Loc, loc: Loc, replace: Option<Attrs>, s: Sys)
    returns (k: nat, v: Version)
    requires Run(md5, acts) == Some(s) && Arrive(i, CopyNew(loc, src, replace)) in acts
    ensures i in s.ops
    ensures IsOut(Counter(s.ops[i])) ==> ReadAt(md5, acts, k, i, src, v)
    ensures EventsBy(i, Events(md5, acts))
      == if IsOut(Counter(s.ops[i])) then [Event(i, loc, Some(CopiedVersion(md5, v, loc.key, replace)))] else []
  {
    Arrived(md5, acts, i, CopyNew(loc, src, replace), s);
    var t := StoryOf(md5, acts, i).value;
    CopyCounter(t, s.ops[i]);
    TookEffect(md5, acts, i, s);
    k, v := 0, Version([], 0, [], Attrs([], map[]), []);
    if IsOut(Counter(s.ops[i])) {
      v := t.seen.value;
      k := SeenWasCurrent(md5, acts, i);
      MeetsIsCopied(md5, loc, v, replace, EventsBy(i, Events(md5, acts))[0]);
    }
  }

  // ---- deletes ----

  /** Act `k` is where request `i` looked for `loc`, and `found` tells whether the object was there then. */
  predicate ProbedAt(md5: Md5, acts: seq<Act>, k: nat, i: Id, loc: Loc, found: bool) {
    && k < |acts| && acts[k] == Take(i, DelProbe)
    && Run(md5, acts[..k]).Some?
    && (found <==> loc in Abs(Run(md5, acts[..k]).value.disk))
  }

  lemma {:induction false} FoundWasThere(md5: Md5, acts: seq<Act>, i: Id) returns (k: nat)
    requires Run(md5, acts).Some? && StoryOf(md5, acts, i).Some? && StoryOf(md5, acts, i).value.found.Some?
    ensures var t := StoryOf(md5, acts, i).value;
      ProbedAt(md5, acts, k, i, t.request.loc, t.found.value)
  {
    var s, a := LastAct(md5, acts);
    var init := acts[..|acts| - 1];
    if a == Take(i, DelProbe) {
      k := |acts| - 1;
    } else {
      k := FoundWasThere(md5, init, i);
      assert init[..k] == acts[..k];
    }
  }

  lemma DelCounter(t: Story, op: Op)
    requires t.request.DelNew? && Tells(t, op)
    ensures var w := Counter(op);
      && w.loc == t.request.loc && !IsOut(w)
      && (IsGone(w) ==> t.found == Some(true)) && (w.DelDone? ==> t.found == Some(w.removed))
  {}

  /** A delete, wherever it stands, removed its object in one step or changed nothing. It removes only an
      object that was there when it looked, and when it has ended well, every such object. */
  lemma DeleteOutcome(md5: Md5, acts: seq<Act>, i: Id, loc: Loc, s: Sys) returns (k: nat)
    requires Run(md5, acts) == Some(s) && Arrive(i, DelNew(loc)) in acts
    ensures i in s.ops
    ensures EventsBy(i, Events(md5, acts)) == if IsGone(Counter(s.ops[i])) then [Event(i, loc, None)] else []
    ensures IsGone(Counter(s.ops[i])) ==> ProbedAt(md5, acts, k, i, loc, true)
    ensures s.ops[i].DelDone? ==> ProbedAt(md5, acts, k, i, loc, s.ops[i].removed)
  {
    Arrived(md5, acts, i, DelNew(loc), s);
    var t := StoryOf(md5, acts, i).value;
    DelCounter(t, s.ops[i]);
    TookEffect(md5, acts, i, s);
    k := 0;
    if t.found.Some? { k := FoundWasThere(md5, acts, i); }
  }

  // ---- crashes and cancellations ----

  /** The events of request `i` are the one that `request` asked for. */
  ghost predicate Fulfils(md5: Md5, acts: seq<Act>, i: Id, request: Op, events: seq<Event>) {
    if request.PutNew? then
      events == [PutEvent(md5, i, request.loc, request.attrs, Received(i, acts))]
    else if request.JoinNew? then
      events == [JoinEvent(md5, i, request.loc, request.attrs, request.parts)]
    else if request.CopyNew? then
      exists k, v ::
        && ReadAt(md5, acts, k, i, request.src, v)
        && events == [Event(i, request.loc, Some(CopiedVersion(md5, v, request.loc.key, request.replace)))]
    else
      request.DelNew? && events == [Event(i, request.loc, None)]
  }

  lemma ReadMakesNothing(md5: Md5, acts: seq<Act>, i: Id, request: Op, s: Sys)
    requires Run(md5, acts) == Some(s) && request.GetNew? && Arrive(i, request) in acts
    ensures EventsBy(i, Events(md5, acts)) == []
  {
    Arrived(md5, acts, i, request, s);
    TookEffect(md5, acts, i, s);
  }

  /** Old or new: a request cancelled, or caught by a crash, changed nothing that a client can see, or did in
      one step all that it was asked to do when it arrived, with the body it had been sent. */
  lemma LostOutcome(md5: Md5, acts: seq<Act>, i: Id, request: Op, s: Sys)
    requires Run(md5, acts) == Some(s) && Arrive(i, request) in acts && i in s.ops && s.ops[i].Lost?
    ensures var mine := EventsBy(i, Events(md5, acts));
      mine == [] || Fulfils(md5, acts, i, request, mine)
  {
    Arrived(md5, acts, i, request, s);
    if request.PutNew? {
      PutOutcome(md5, acts, i, request.loc, request.attrs, s);
    } else if request.JoinNew? {
      JoinOutcome(md5, acts, i, request.loc, request.attrs, request.parts, s);
    } else if request.CopyNew? {
      var k, v := CopyInstallsOneVersion(md5, acts, i, request.src, request.loc, request.replace, s);
    } else if request.DelNew? {
      var k := DeleteOutcome(md5, acts, i, request.loc, s);
    } else {
      ReadMakesNothing(md5, acts, i, request, s);
    }
  }
}
