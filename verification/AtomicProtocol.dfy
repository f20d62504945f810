/** Staged replacement as a state machine: one transition per system call.

    Any number of writers run beside an environment that may change the file system
    arbitrarily between any two calls; it can only not recycle an object that some
    writer holds open. */
module AtomicProtocol {
  import opened Common
  import opened Filesystem

  const MAX_READ_BYTES: nat := 16 * 1024 * 1024

  datatype Failure =
    | StageFailed
    | StagedIdentityUnverifiable
    | TargetIsNotARegularFile
    | TargetChanged
    | ParentChanged
    | TargetUnreadable
    | ReplaceFailed

  /** How the staged value is used: one of the three commits, or simply dropped. */
  datatype Mode = Unconditional | IfAbsent | IfDigest(expected: Digest) | Abandon

  datatype Job = Job(
    directory: Path,
    first: Path,       // the pathname of the first nonce
    second: Path,      // the pathname of the retry's nonce
    target: Path,
    contents: Bytes,
    mode: Mode)

  datatype ParentIdentity = ParentIdentity(canonical: Path, ino: Ino)

  /** The system calls of a commit, in program order. */
  datatype Check =
    | ParentStat | ParentPath | TargetKind | TargetAbsent | TargetDigest
    | HandleStat | StagedName | StagedBytes | Swap

  datatype Outcome = Committed | Failed(failure: Failure) | Dropped

  datatype Pc =
    | Claim(retry: bool) | FirstStat | Write | ApplyMode | SecondStat
    | CaptureStat | CapturePath(ino: Ino)
    | Verify(check: Check)
    | DropHandle(why: Outcome) | DropName(why: Outcome)
    | Cleanup(why: Outcome) | Remove(why: Outcome)
    | Done(outcome: Outcome)

  /** `passed` is history: the moment at which each commit step succeeded. */
  datatype Writer = Writer(
    job: Job,
    pc: Pc,
    temporary: Path,
    staged: Handle,
    parent: ParentIdentity,
    passed: map<Check, nat>) {

    /** The staged file is held open from its creation until the rename succeeds,
        until a failing stage closes it, or until `Drop` is about to remove it. */
    predicate Open() {
      pc.FirstStat? || pc.Write? || pc.ApplyMode? || pc.SecondStat? || pc.CaptureStat? || pc.CapturePath?
      || pc.Verify? || pc.DropHandle? || pc.DropName?
    }
  }

  /** What the kernel decides at one call: an I/O error, the identity of a created
      object, and how much of a failing write reached the file. */
  datatype Tick = Tick(io: bool, made: Handle, partial: Bytes)

  function Fresh(job: Job): Writer {
    Writer(job, Claim(false), job.first, Handle(0, 0), ParentIdentity("", 0), map[])
  }

  function Rank(c: Check): nat {
    match c
    case ParentStat => 0
    case ParentPath => 1
    case TargetKind => 2
    case TargetAbsent => 3
    case TargetDigest => 4
    case HandleStat => 5
    case StagedName => 6
    case StagedBytes => 7
    case Swap => 8
  }

  predicate Applies(c: Check, mode: Mode) {
    match c
    case TargetAbsent => mode.IfAbsent?
    case TargetDigest => mode.IfDigest?
    case _ => true
  }

  function NextPc(c: Check, mode: Mode): Pc {
    match c
    case ParentStat => Verify(ParentPath)
    case ParentPath => Verify(TargetKind)
    case TargetKind =>
      if mode.IfAbsent? then Verify(TargetAbsent)
      else if mode.IfDigest? then Verify(TargetDigest)
      else Verify(HandleStat)
    case TargetAbsent => Verify(HandleStat)
    case TargetDigest => Verify(HandleStat)
    case HandleStat => Verify(StagedName)
    case StagedName => Verify(StagedBytes)
    case StagedBytes => Verify(Swap)
    case Swap => Done(Committed)
  }

  /** The temporary pathname still names the object identified when it was staged. */
  predicate NamesStaged(w: Writer, fs: FS) {
    IsRegular(fs, w.temporary) && At(fs, w.temporary) == Some(w.staged.ino)
  }

  /** What commit step `c` demands of the file system it looks at. */
  predicate Holds(c: Check, w: Writer, fs: FS) {
    match c
    case ParentStat =>
      IsDirectory(fs, w.job.directory) && At(fs, w.job.directory) == Some(w.parent.ino)
    case ParentPath =>
      w.job.directory in fs.canonical && fs.canonical[w.job.directory] == w.parent.canonical
    case TargetKind => ObjectAt(fs, w.job.target).None? || IsRegular(fs, w.job.target)
    case TargetAbsent => ObjectAt(fs, w.job.target).None?
    case TargetDigest =>
      && w.job.mode.IfDigest?
      && var current := ReadBounded(fs, w.job.target, MAX_READ_BYTES);
         current.Some? && Sha256(current.value) == w.job.mode.expected
    case HandleStat => true
    case StagedName => NamesStaged(w, fs)
    case StagedBytes =>
      var found := ReadBounded(fs, w.temporary, MAX_READ_BYTES);
      found.Some? && Sha256(found.value) == Sha256(w.job.contents)
    case Swap => Renamed(fs, w.temporary, w.job.target).Some?
  }

  function Refusal(c: Check, io: bool): Failure {
    match c
    case ParentStat => ParentChanged
    case ParentPath => ParentChanged
    case TargetKind => if io then TargetUnreadable else TargetIsNotARegularFile
    case TargetAbsent => if io then TargetUnreadable else TargetChanged
    case TargetDigest => if io then TargetUnreadable else TargetChanged
    case HandleStat => StagedIdentityUnverifiable
    case StagedName => StagedIdentityUnverifiable
    case StagedBytes => StagedIdentityUnverifiable
    case Swap => ReplaceFailed
  }

  /** One call of `commit_inner`. A refusal drops the staged value. */
  function CommitStep(w: Writer, fs: FS, tick: Tick, now: nat): (Writer, FS)
    requires w.pc.Verify?
  {
    var c := w.pc.check;
    if tick.io || !Holds(c, w, fs) then
      (w.(pc := DropHandle(Failed(Refusal(c, tick.io)))), fs)
    else
      (w.(pc := NextPc(c, w.job.mode), passed := w.passed[c := now]),
       if c == Swap then Renamed(fs, w.temporary, w.job.target).value else fs)
  }

  /** One call of `stage_atomic`. After a failed `create_new` there is nothing to clean;
      when the first `fstat` fails the temporary is left behind. */
  function StageStep(w: Writer, fs: FS, tick: Tick): (Writer, FS)
    requires w.pc.Claim? || w.pc.FirstStat? || w.pc.Write? || w.pc.ApplyMode? || w.pc.SecondStat? ||
             w.pc.CaptureStat? || w.pc.CapturePath?
    requires w.Open() ==> Pinned(fs, w.staged)
  {
    var abort := w.(pc := Cleanup(Failed(StageFailed)));
    match w.pc
    case Claim(retry) =>
      if tick.io then (w.(pc := Done(Failed(StageFailed))), fs)
      else if w.temporary in fs.names then
        if retry then (w.(pc := Done(Failed(StageFailed))), fs)
        else (w.(pc := Claim(true), temporary := w.job.second), fs)
      else
        (w.(pc := FirstStat, staged := tick.made), Created(fs, w.temporary, tick.made))
    case FirstStat =>
      if tick.io then (w.(pc := Done(Failed(StageFailed))), fs) else (w.(pc := Write), fs)
    case Write =>
      if tick.io then (abort, Written(fs, w.staged, tick.partial))
      else (w.(pc := ApplyMode), Written(fs, w.staged, w.job.contents))
    case ApplyMode => if tick.io then (abort, fs) else (w.(pc := SecondStat), fs)
    case SecondStat => if tick.io then (abort, fs) else (w.(pc := CaptureStat), fs)
    case CaptureStat =>
      if tick.io || !IsDirectory(fs, w.job.directory) then (abort, fs)
      else (w.(pc := CapturePath(At(fs, w.job.directory).value)), fs)
    case CapturePath(ino) =>
      if tick.io || w.job.directory !in fs.canonical then (abort, fs)
      else
        (w.(parent := ParentIdentity(fs.canonical[w.job.directory], ino),
            pc := if w.job.mode.Abandon? then DropHandle(Dropped) else Verify(ParentStat)), fs)
  }

  /** One call of `Drop` or of `remove_staged_if_matching`. */
  function DropStep(w: Writer, fs: FS, tick: Tick): (Writer, FS)
    requires w.pc.DropHandle? || w.pc.DropName? || w.pc.Cleanup? || w.pc.Remove?
  {
    var finish := w.(pc := Done(w.pc.why));
    match w.pc
    case DropHandle(why) => if tick.io then (finish, fs) else (w.(pc := DropName(why)), fs)
    case DropName(why) =>
      if tick.io || !NamesStaged(w, fs) then (finish, fs) else (w.(pc := Cleanup(why)), fs)
    case Cleanup(why) =>
      if tick.io || !NamesStaged(w, fs) then (finish, fs) else (w.(pc := Remove(why)), fs)
    case Remove(why) => (finish, if tick.io then fs else Unlinked(fs, w.temporary))
  }

  function Step(w: Writer, fs: FS, tick: Tick, now: nat): (Writer, FS)
    requires !w.pc.Done?
    requires w.Open() ==> Pinned(fs, w.staged)
  {
    if w.pc.Verify? then CommitStep(w, fs, tick, now)
    else if w.pc.DropHandle? || w.pc.DropName? || w.pc.Cleanup? || w.pc.Remove? then DropStep(w, fs, tick)
    else StageStep(w, fs, tick)
  }

  // ---- runs ----

  datatype Event =
    | Environment(fs: FS)
    | Begin(id: nat, job: Job)
    | Call(id: nat, tick: Tick)

  /** `history[t]` is the file system before step `t`, and `actors[t]` who made it. */
  datatype World = World(history: seq<FS>, actors: seq<Option<nat>>, writers: map<nat, Writer>) {
    predicate Shaped() {
      |history| == |actors| + 1
    }

    function Now(): FS
      requires Shaped()
    {
      history[|actors|]
    }
  }

  function Start(fs: FS): World {
    World([fs], [], map[])
  }

  ghost predicate Enabled(world: World, e: Event) {
    && world.Shaped()
    && match e
       case Environment(fs) =>
         forall id :: id in world.writers && world.writers[id].Open() ==> Pinned(fs, world.writers[id].staged)
       case Begin(id, job) => id !in world.writers
       case Call(id, tick) =>
         && id in world.writers
         && !world.writers[id].pc.Done?
         && (world.writers[id].Open() ==> Pinned(world.Now(), world.writers[id].staged))
         && (world.writers[id].pc.Claim? && !tick.io ==> tick.made.ino !in world.Now().objects)
  }

  ghost function Apply(world: World, e: Event): World
    requires Enabled(world, e)
  {
    match e
    case Environment(fs) => world.(history := world.history + [fs], actors := world.actors + [None])
    case Begin(id, job) => world.(writers := world.writers[id := Fresh(job)])
    case Call(id, tick) =>
      var (w, fs) := Step(world.writers[id], world.Now(), tick, |world.actors|);
      World(world.history + [fs], world.actors + [Some(id)], world.writers[id := w])
  }

  ghost predicate Legal(init: FS, events: seq<Event>)
    decreases events, 0
  {
    events == [] ||
    (Legal(init, events[..|events| - 1]) &&
     Enabled(Reached(init, events[..|events| - 1]), events[|events| - 1]))
  }

  ghost function Reached(init: FS, events: seq<Event>): World
    requires Legal(init, events)
    decreases events, 1
  {
    if events == [] then Start(init)
    else Apply(Reached(init, events[..|events| - 1]), events[|events| - 1])
  }

  // ---- what every step keeps ----

  /** How far a writer is into the commit: checks of lower rank have passed. */
  function Progress(pc: Pc): nat {
    match pc
    case Verify(c) => Rank(c)
    case Done(o) => if o.Committed? then 9 else 0
    case _ => 0
  }

  predicate Dropping(pc: Pc) {
    pc.DropHandle? || pc.DropName? || pc.Cleanup? || pc.Remove? || (pc.Done? && !pc.outcome.Committed?)
  }

  /** How a writer's program counter and the checks it has passed fit together. */
  ghost predicate Orderly(w: Writer) {
    && (w.temporary == w.job.first || w.temporary == w.job.second)
    && (w.pc.Verify? ==> Applies(w.pc.check, w.job.mode))
    && (w.pc.DropHandle? || w.pc.DropName? || w.pc.Cleanup? || w.pc.Remove? ==> w.pc.why != Committed)
    && (forall c :: c in w.passed && !Dropping(w.pc) ==> Rank(c) < Progress(w.pc))
    && (forall c :: Rank(c) < Progress(w.pc) && Applies(c, w.job.mode) ==> c in w.passed)
    && (w.pc == Done(Committed) <==> Swap in w.passed)
  }

  /** Each passed check was true of the file system at the moment it was made, and
      the checks were made in program order. */
  ghost predicate Evidence(world: World, id: nat, w: Writer)
    requires world.Shaped()
  {
    && (forall c :: c in w.passed ==>
          && w.passed[c] < |world.actors|
          && world.actors[w.passed[c]] == Some(id)
          && Holds(c, w, world.history[w.passed[c]]))
    && (forall c, d :: c in w.passed && d in w.passed && Rank(c) < Rank(d) ==> w.passed[c] < w.passed[d])
  }

  ghost predicate SwapRecorded(world: World, w: Writer)
    requires world.Shaped()
  {
    Swap in w.passed && w.passed[Swap] < |world.actors| ==>
      && Pinned(world.history[w.passed[Swap]], w.staged)
      && Renamed(world.history[w.passed[Swap]], w.temporary, w.job.target)
         == Some(world.history[w.passed[Swap] + 1])
  }

  /** Apart from a successful rename, a writer's calls change no entry but its own
      temporary pathnames. */
  ghost predicate Discreet(world: World, id: nat, w: Writer)
    requires world.Shaped()
  {
    forall t :: 0 <= t < |world.actors| && world.actors[t] == Some(id) ==>
      || (Swap in w.passed && t == w.passed[Swap])
      || SameNamesExcept(world.history[t], world.history[t + 1], {w.job.first, w.job.second})
  }

  /** No object changes but the writer's own, once it has one. */
  ghost predicate SameObjects(a: FS, b: FS, w: Writer) {
    forall ino :: ino in a.objects && (ino != w.staged.ino || w.pc.Claim?) ==>
      ino in b.objects && b.objects[ino] == a.objects[ino]
  }

  /** A writer's calls change no object but the one it staged. */
  ghost predicate Confined(world: World, id: nat, w: Writer)
    requires world.Shaped()
  {
    forall t :: 0 <= t < |world.actors| && world.actors[t] == Some(id) ==>
      SameObjects(world.history[t], world.history[t + 1], w)
  }

  ghost predicate Held(world: World, w: Writer)
    requires world.Shaped()
  {
    w.Open() ==> Pinned(world.Now(), w.staged)
  }

  ghost predicate Inv(world: World) {
    && world.Shaped()
    && (forall t :: 0 <= t < |world.actors| && world.actors[t].Some? ==> world.actors[t].value in world.writers)
    && forall id :: id in world.writers ==>
         && Orderly(world.writers[id])
         && Held(world, world.writers[id])
         && Evidence(world, id, world.writers[id])
         && SwapRecorded(world, world.writers[id])
         && Discreet(world, id, world.writers[id])
         && Confined(world, id, world.writers[id])
  }

  // ---- the invariant holds in every run ----

  /** No writer's call takes away an object that someone holds open. */
  lemma StepKeepsPins(w: Writer, fs: FS, tick: Tick, now: nat, h: Handle)
    requires !w.pc.Done? && (w.Open() ==> Pinned(fs, w.staged))
    requires w.pc.Claim? && !tick.io ==> tick.made.ino !in fs.objects
    requires Pinned(fs, h)
    ensures Pinned(Step(w, fs, tick, now).1, h)
  {}

  lemma Frame(world: World, next: World, id: nat, w: Writer, actor: Option<nat>, fs: FS)
    requires world.Shaped()
    requires next.history == world.history + [fs] && next.actors == world.actors + [actor]
    requires actor != Some(id)
    requires w.Open() ==> Pinned(fs, w.staged)
    requires Held(world, w) && Evidence(world, id, w) && SwapRecorded(world, w) && Discreet(world, id, w)
    requires Confined(world, id, w)
    ensures Held(next, w) && Evidence(next, id, w) && SwapRecorded(next, w) && Discreet(next, id, w)
    ensures Confined(next, id, w)
  {
    assert forall t :: 0 <= t < |world.history| ==> next.history[t] == world.history[t];
    assert forall t :: 0 <= t < |world.actors| ==> next.actors[t] == world.actors[t];
  }

  lemma StepHeld(w: Writer, fs: FS, tick: Tick, now: nat)
    requires !w.pc.Done? && (w.Open() ==> Pinned(fs, w.staged))
    requires w.pc.Claim? && !tick.io ==> tick.made.ino !in fs.objects
    ensures var (w', fs') := Step(w, fs, tick, now); w'.Open() ==> Pinned(fs', w'.staged)
  {}

  lemma StepKeepsFacts(w: Writer, fs: FS, tick: Tick, now: nat, c: Check, seen: FS)
    requires !w.pc.Done? && (w.Open() ==> Pinned(fs, w.staged))
    requires Orderly(w) && c in w.passed
    ensures Holds(c, w, seen) <==> Holds(c, Step(w, fs, tick, now).0, seen)
  {}

  /** Passing a check leaves no applicable check of lower rank behind. */
  lemma NextSkipsNothing(c: Check, mode: Mode)
    requires Applies(c, mode)
    ensures forall d :: Applies(d, mode) && Rank(d) < Progress(NextPc(c, mode)) ==> d == c || Rank(d) < Rank(c)
    ensures Rank(c) < Progress(NextPc(c, mode))
  {
    forall d | Applies(d, mode) && Rank(d) < Progress(NextPc(c, mode)) ensures d == c || Rank(d) < Rank(c) {
    }
  }

  lemma CommitStepOrderly(w: Writer, fs: FS, tick: Tick, now: nat)
    requires w.pc.Verify? && Orderly(w)
    ensures Orderly(CommitStep(w, fs, tick, now).0)
  {
    NextSkipsNothing(w.pc.check, w.job.mode);
    hide Holds, Renamed;
  }

  lemma StageStepOrderly(w: Writer, fs: FS, tick: Tick)
    requires w.pc.Claim? || (w.Open() && !w.pc.Verify? && !w.pc.DropHandle? && !w.pc.DropName?)
    requires w.Open() ==> Pinned(fs, w.staged)
    requires Orderly(w)
    ensures Orderly(StageStep(w, fs, tick).0)
  {}

  lemma DropStepOrderly(w: Writer, fs: FS, tick: Tick)
    requires w.pc.DropHandle? || w.pc.DropName? || w.pc.Cleanup? || w.pc.Remove?
    requires Orderly(w)
    ensures Orderly(DropStep(w, fs, tick).0)
  {}

  lemma StepOrderly(w: Writer, fs: FS, tick: Tick, now: nat)
    requires !w.pc.Done? && (w.Open() ==> Pinned(fs, w.staged)) && Orderly(w)
    ensures Orderly(Step(w, fs, tick, now).0)
  {
    if w.pc.Verify? {
      CommitStepOrderly(w, fs, tick, now);
    } else if w.pc.DropHandle? || w.pc.DropName? || w.pc.Cleanup? || w.pc.Remove? {
      DropStepOrderly(w, fs, tick);
    } else {
      StageStepOrderly(w, fs, tick);
    }
  }

  /** Only a commit step adds to what has passed, and it adds the check it made. */
  lemma StepPasses(w: Writer, fs: FS, tick: Tick, now: nat)
    requires !w.pc.Done? && (w.Open() ==> Pinned(fs, w.staged)) && Orderly(w)
    ensures var w' := Step(w, fs, tick, now).0;
            || w'.passed == w.passed
            || (&& w.pc.Verify? && w.pc.check !in w.passed
                && w'.passed == w.passed[w.pc.check := now]
                && (forall c :: c in w.passed ==> Rank(c) < Rank(w.pc.check))
                && Holds(w.pc.check, w', fs))
  {}

  lemma StepEvidence(world: World, next: World, id: nat, w: Writer, tick: Tick)
    requires world.Shaped() && next.Shaped() && Held(world, w) && !w.pc.Done?
    requires Orderly(w) && Evidence(world, id, w)
    requires next.history == world.history + [Step(w, world.Now(), tick, |world.actors|).1]
    requires next.actors == world.actors + [Some(id)]
    ensures Evidence(next, id, Step(w, world.Now(), tick, |world.actors|).0)
  {
    var now := |world.actors|;
    var w' := Step(w, world.Now(), tick, now).0;
    StepPasses(w, world.Now(), tick, now);
    forall c | c in w'.passed
      ensures w'.passed[c] <= now && next.actors[w'.passed[c]] == Some(id)
      ensures Holds(c, w', next.history[w'.passed[c]])
    {
      if c in w.passed {
        StepKeepsFacts(w, world.Now(), tick, now, c, world.history[w.passed[c]]);
      }
    }
  }

  lemma StepRecordsSwap(world: World, next: World, id: nat, w: Writer, tick: Tick)
    requires world.Shaped() && next.Shaped() && Held(world, w) && Orderly(w) && !w.pc.Done?
    requires next.history == world.history + [Step(w, world.Now(), tick, |world.actors|).1]
    requires next.actors == world.actors + [Some(id)]
    ensures SwapRecorded(next, Step(w, world.Now(), tick, |world.actors|).0)
  {
    assert Swap !in w.passed;
    assert next.history[|world.actors|] == world.Now();
  }

  lemma StepDiscreet(world: World, next: World, id: nat, w: Writer, tick: Tick)
    requires world.Shaped() && next.Shaped() && Held(world, w) && Orderly(w) && !w.pc.Done?
    requires Discreet(world, id, w)
    requires next.history == world.history + [Step(w, world.Now(), tick, |world.actors|).1]
    requires next.actors == world.actors + [Some(id)]
    ensures Discreet(next, id, Step(w, world.Now(), tick, |world.actors|).0)
  {
    hide Holds, Renamed;
    var now := |world.actors|;
    var w' := Step(w, world.Now(), tick, now).0;
    assert Swap !in w.passed;
    assert forall t :: 0 <= t < |world.history| ==> next.history[t] == world.history[t];
    assert next.history[now] == world.Now();
    assert w'.job == w.job;
    assert Swap in w'.passed || SameNamesExcept(world.Now(), next.history[now + 1], {w.job.first, w.job.second});
  }

  lemma StepConfined(world: World, next: World, id: nat, w: Writer, tick: Tick)
    requires world.Shaped() && next.Shaped() && Held(world, w) && !w.pc.Done? && Confined(world, id, w)
    requires w.pc.Claim? && !tick.io ==> tick.made.ino !in world.Now().objects
    requires next.history == world.history + [Step(w, world.Now(), tick, |world.actors|).1]
    requires next.actors == world.actors + [Some(id)]
    ensures Confined(next, id, Step(w, world.Now(), tick, |world.actors|).0)
  {
    var now := |world.actors|;
    var w' := Step(w, world.Now(), tick, now).0;
    assert forall t :: 0 <= t < |world.history| ==> next.history[t] == world.history[t];
    StepSparesObjects(w, world.Now(), tick, now);
    hide Step, Pinned;
    forall t | 0 <= t < now && next.actors[t] == Some(id) ensures SameObjects(next.history[t], next.history[t + 1], w') {
      assert SameObjects(world.history[t], world.history[t + 1], w);
    }
  }

  lemma StepSparesObjects(w: Writer, fs: FS, tick: Tick, now: nat)
    requires !w.pc.Done? && (w.Open() ==> Pinned(fs, w.staged))
    requires w.pc.Claim? && !tick.io ==> tick.made.ino !in fs.objects
    ensures var (w', fs') := Step(w, fs, tick, now);
            SameObjects(fs, fs', w') && !(w'.pc.Claim? && !w.pc.Claim?) && (w'.staged == w.staged || w.pc.Claim?)
  {
    if w.pc == Verify(Swap) && !tick.io && Holds(Swap, w, fs) {
      assert Renamed(fs, w.temporary, w.job.target).value.objects == fs.objects;
    }
    hide Holds, Renamed;
  }

  lemma CallKeeps(world: World, id: nat, tick: Tick)
    requires Inv(world) && Enabled(world, Call(id, tick))
    ensures Inv(Apply(world, Call(id, tick)))
  {
    hide Step, Holds, Pinned, Evidence, Orderly, Discreet, SwapRecorded, Confined;
    var w := world.writers[id];
    var next := Apply(world, Call(id, tick));
    var fs := Step(w, world.Now(), tick, |world.actors|).1;
    StepHeld(w, world.Now(), tick, |world.actors|);
    StepOrderly(w, world.Now(), tick, |world.actors|);
    StepEvidence(world, next, id, w, tick);
    StepRecordsSwap(world, next, id, w, tick);
    StepDiscreet(world, next, id, w, tick);
    StepConfined(world, next, id, w, tick);
    forall other | other in world.writers && other != id
      ensures var v := next.writers[other];
              && Held(next, v) && Evidence(next, other, v) && SwapRecorded(next, v)
              && Discreet(next, other, v) && Confined(next, other, v)
    {
      var v := world.writers[other];
      if v.Open() {
        StepKeepsPins(w, world.Now(), tick, |world.actors|, v.staged);
      }
      Frame(world, next, other, v, Some(id), fs);
    }
  }

  lemma EnvironmentKeeps(world: World, fs: FS)
    requires Inv(world) && Enabled(world, Environment(fs))
    ensures Inv(Apply(world, Environment(fs)))
  {
    var next := Apply(world, Environment(fs));
    forall id | id in world.writers
      ensures var v := next.writers[id];
              && Held(next, v) && Evidence(next, id, v) && SwapRecorded(next, v)
              && Discreet(next, id, v) && Confined(next, id, v)
    {
      Frame(world, next, id, world.writers[id], None, fs);
    }
  }

  lemma BeginKeeps(world: World, id: nat, job: Job)
    requires Inv(world) && Enabled(world, Begin(id, job))
    ensures Inv(Apply(world, Begin(id, job)))
  {
    hide Holds, Step, Pinned;
    var next := Apply(world, Begin(id, job));
    assert forall t :: 0 <= t < |world.actors| ==> world.actors[t] != Some(id);
    forall other | other in world.writers
      ensures var v := next.writers[other];
              && Held(next, v) && Evidence(next, other, v) && SwapRecorded(next, v)
              && Discreet(next, other, v) && Confined(next, other, v)
    {
      assert next.writers[other] == world.writers[other];
    }
  }

  /** Every reachable world satisfies the invariant, however calls and environment
      changes are interleaved. */
  lemma {:induction false} EveryRunIsSound(init: FS, events: seq<Event>)
    requires Legal(init, events)
    ensures Inv(Reached(init, events))
  {
    hide Holds, Step;
    if events != [] {
      hide Inv, Enabled, Apply;
      var before := events[..|events| - 1];
      EveryRunIsSound(init, before);
      var world := Reached(init, before);
      match events[|events| - 1]
      case Environment(fs) => EnvironmentKeeps(world, fs);
      case Begin(id, job) => BeginKeeps(world, id, job);
      case Call(id, tick) => CallKeeps(world, id, tick);
    }
  }

  lemma RunGrows(init: FS, events: seq<Event>, e: Event)
    requires Legal(init, events) && Enabled(Reached(init, events), e)
    ensures Legal(init, events + [e]) && Reached(init, events + [e]) == Apply(Reached(init, events), e)
  {
    assert (events + [e])[..|events|] == events;
  }

  ghost predicate Reachable(world: World) {
    exists init, events :: Legal(init, events) && Reached(init, events) == world
  }

  lemma ReachableIsSound(world: World)
    requires Reachable(world)
    ensures Inv(world)
  {
    var init, events :| Legal(init, events) && Reached(init, events) == world;
    EveryRunIsSound(init, events);
  }

  lemma ReachableStep(world: World, e: Event)
    requires Reachable(world) && Enabled(world, e)
    ensures Reachable(Apply(world, e))
  {
    var init, events :| Legal(init, events) && Reached(init, events) == world;
    RunGrows(init, events, e);
  }
}
