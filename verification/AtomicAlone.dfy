/** A writer that nobody interferes with: it terminates, and what it does is known exactly. */
module AtomicAlone {
  import opened Common
  import opened Filesystem
  import opened AtomicProtocol

  function CallsLeft(pc: Pc): nat {
    match pc
    case Claim(retry) => if retry then 26 else 27
    case FirstStat => 25
    case Write => 24
    case ApplyMode => 23
    case SecondStat => 22
    case CaptureStat => 21
    case CapturePath(_) => 20
    case Verify(c) => 5 + 9 - Rank(c)
    case DropHandle(_) => 4
    case DropName(_) => 3
    case Cleanup(_) => 2
    case Remove(_) => 1
    case Done(_) => 0
  }

  const Quiet: Tick := Tick(false, Handle(0, 0), [])

  lemma CallsLeftDecreases(w: Writer, fs: FS, tick: Tick, now: nat)
    requires !w.pc.Done? && (w.Open() ==> Pinned(fs, w.staged))
    ensures CallsLeft(Step(w, fs, tick, now).0.pc) < CallsLeft(w.pc)
  {
    if w.pc.Verify? {
      match w.pc.check { case _ => }
    }
  }

  /** Run an already staged writer to its end with nobody interfering. */
  ghost function Alone(w: Writer, fs: FS, now: nat): (Writer, FS)
    requires !w.pc.Claim? && (w.Open() ==> Pinned(fs, w.staged))
    decreases CallsLeft(w.pc)
  {
    if w.pc.Done? then (w, fs)
    else
      CallsLeftDecreases(w, fs, Quiet, now);
      StepHeld(w, fs, Quiet, now);
      var (w', fs') := Step(w, fs, Quiet, now);
      Alone(w', fs', now + 1)
  }

  /** An uninterrupted `Drop` removes the temporary exactly when it still names the
      staged object, and touches nothing when it names a substitute. */
  lemma DropRemovesOnlyTheStagedObject(w: Writer, fs: FS, now: nat)
    requires w.pc.DropHandle? && Pinned(fs, w.staged)
    ensures Alone(w, fs, now).0.pc == Done(w.pc.why)
    ensures Alone(w, fs, now).1 ==
            if At(fs, w.temporary) == Some(w.staged.ino) then Unlinked(fs, w.temporary) else fs
    ensures At(fs, w.temporary) == Some(w.staged.ino) ==>
              ObjectAt(fs, w.temporary).value.birth == w.staged.birth
  {
    var w1 := w.(pc := DropName(w.pc.why));
    assert Alone(w, fs, now) == Alone(w1, fs, now + 1);
    if NamesStaged(w, fs) {
      var w2 := w.(pc := Cleanup(w.pc.why));
      var w3 := w.(pc := Remove(w.pc.why));
      assert Alone(w1, fs, now + 1) == Alone(w2, fs, now + 2);
      assert Alone(w2, fs, now + 2) == Alone(w3, fs, now + 3);
      assert Alone(w3, fs, now + 3) == (w.(pc := Done(w.pc.why)), Unlinked(fs, w.temporary));
    } else {
      assert Alone(w1, fs, now + 1) == (w.(pc := Done(w.pc.why)), fs);
    }
  }

  /** All that an uninterrupted commit asks of the file system. */
  ghost predicate Admits(w: Writer, fs: FS) {
    forall c :: Applies(c, w.job.mode) ==> Holds(c, w, fs)
  }

  lemma {:induction false} AloneCommit(w: Writer, fs: FS, now: nat)
    requires w.pc.Verify? && Applies(w.pc.check, w.job.mode) && Pinned(fs, w.staged)
    requires forall c :: Applies(c, w.job.mode) && Rank(c) < Rank(w.pc.check) ==> Holds(c, w, fs)
    ensures Alone(w, fs, now).0.pc == Done(Committed) <==> Admits(w, fs)
    ensures Admits(w, fs) ==> Renamed(fs, w.temporary, w.job.target) == Some(Alone(w, fs, now).1)
    ensures !Admits(w, fs) ==>
              Alone(w, fs, now).1 == if At(fs, w.temporary) == Some(w.staged.ino) then Unlinked(fs, w.temporary) else fs
    decreases CallsLeft(w.pc)
  {
    var c := w.pc.check;
    CallsLeftDecreases(w, fs, Quiet, now);
    NextSkipsNothing(c, w.job.mode);
    var (w', fs') := Step(w, fs, Quiet, now);
    if !Holds(c, w, fs) {
      DropRemovesOnlyTheStagedObject(w', fs', now + 1);
    } else if c != Swap {
      assert forall d :: Holds(d, w', fs) == Holds(d, w, fs);
      AloneCommit(w', fs', now + 1);
    } else {
      assert forall d :: Rank(d) <= 8;
      assert forall d :: Rank(d) == 8 ==> d == Swap;
    }
  }

  // ---- a whole replacement running alone ----

  predicate Staging(pc: Pc) {
    pc.Claim? || pc.FirstStat? || pc.Write? || pc.ApplyMode? || pc.SecondStat? || pc.CaptureStat? || pc.CapturePath?
  }

  /** Run a writer through its staging with nobody interfering and no I/O error. */
  ghost function StagedAlone(w: Writer, fs: FS, made: Handle, now: nat): (Writer, FS)
    requires (w.Open() ==> Pinned(fs, w.staged)) && (w.pc.Claim? ==> made.ino !in fs.objects)
    decreases CallsLeft(w.pc)
  {
    if !Staging(w.pc) then (w, fs)
    else
      var tick := Tick(false, made, []);
      CallsLeftDecreases(w, fs, tick, now);
      StepHeld(w, fs, tick, now);
      var (w', fs') := Step(w, fs, tick, now);
      StagedAlone(w', fs', made, now + 1)
  }

  /** The name that staging claims: the second if the first is taken. */
  function Claimed(job: Job, fs: FS): Path {
    if job.first in fs.names then job.second else job.first
  }

  predicate UnusedIdentity(fs: FS, made: Handle) {
    made.ino !in fs.objects && made.ino !in fs.names.Values
  }

  /** A directory to stage into, one of the two names free and an unused identity. */
  predicate CanStage(job: Job, fs: FS, made: Handle) {
    && IsDirectory(fs, job.directory) && job.directory in fs.canonical
    && Claimed(job, fs) !in fs.names && job.target != Claimed(job, fs)
    && UnusedIdentity(fs, made)
  }

  /** The file system once the bytes are staged. */
  ghost function WithStaged(job: Job, fs: FS, made: Handle): FS {
    Written(Created(fs, Claimed(job, fs), made), made, job.contents)
  }

  /** A writer in the middle of staging. */
  function Midway(job: Job, fs: FS, made: Handle, pc: Pc): Writer {
    Fresh(job).(pc := pc, temporary := Claimed(job, fs), staged := made)
  }

  ghost function StagedWriter(job: Job, fs: FS, made: Handle): Writer
    requires CanStage(job, fs, made)
  {
    Midway(job, fs, made, Verify(ParentStat)).(
      parent := ParentIdentity(fs.canonical[job.directory], fs.names[job.directory]))
  }

  /** Claiming a name and writing the bytes, with the retry when the first name is taken. */
  lemma ClaimingSucceeds(job: Job, fs: FS, made: Handle)
    requires Claimed(job, fs) !in fs.names && UnusedIdentity(fs, made)
    ensures exists now ::
              StagedAlone(Fresh(job), fs, made, 0)
              == StagedAlone(Midway(job, fs, made, ApplyMode), WithStaged(job, fs, made), made, now)
  {
    var empty, full := Created(fs, Claimed(job, fs), made), WithStaged(job, fs, made);
    var start := Fresh(job);
    var now := if job.first in fs.names then 1 else 0;
    if job.first in fs.names {
      start := Fresh(job).(pc := Claim(true), temporary := job.second);
      assert StagedAlone(Fresh(job), fs, made, 0) == StagedAlone(start, fs, made, 1);
    }
    assert StagedAlone(start, fs, made, now) == StagedAlone(Midway(job, fs, made, FirstStat), empty, made, now + 1);
    WritingSucceeds(job, fs, made, now);
  }

  lemma WritingSucceeds(job: Job, fs: FS, made: Handle, now: nat)
    requires Claimed(job, fs) !in fs.names && UnusedIdentity(fs, made)
    ensures StagedAlone(Midway(job, fs, made, FirstStat), Created(fs, Claimed(job, fs), made), made, now + 1)
            == StagedAlone(Midway(job, fs, made, ApplyMode), WithStaged(job, fs, made), made, now + 3)
  {
    var empty, full := Created(fs, Claimed(job, fs), made), WithStaged(job, fs, made);
    assert StagedAlone(Midway(job, fs, made, FirstStat), empty, made, now + 1)
           == StagedAlone(Midway(job, fs, made, Write), empty, made, now + 2);
    assert StagedAlone(Midway(job, fs, made, Write), empty, made, now + 2)
           == StagedAlone(Midway(job, fs, made, ApplyMode), full, made, now + 3);
  }

  lemma StagingSucceeds(job: Job, fs: FS, made: Handle)
    requires CanStage(job, fs, made) && !job.mode.Abandon?
    ensures StagedAlone(Fresh(job), fs, made, 0) == (StagedWriter(job, fs, made), WithStaged(job, fs, made))
  {
    ClaimingSucceeds(job, fs, made);
    hide StagedAlone, WithStaged;
    var now :| StagedAlone(Fresh(job), fs, made, 0)
               == StagedAlone(Midway(job, fs, made, ApplyMode), WithStaged(job, fs, made), made, now);
    CapturingSucceeds(job, fs, made, now);
  }

  lemma CapturingSucceeds(job: Job, fs: FS, made: Handle, now: nat)
    requires CanStage(job, fs, made) && !job.mode.Abandon?
    ensures StagedAlone(Midway(job, fs, made, ApplyMode), WithStaged(job, fs, made), made, now)
            == (StagedWriter(job, fs, made), WithStaged(job, fs, made))
  {
    var full, ino := WithStaged(job, fs, made), fs.names[job.directory];
    assert At(full, job.directory) == Some(ino) && IsDirectory(full, job.directory);
    assert Pinned(full, made) && full.canonical == fs.canonical;
    hide WithStaged, Claimed;
    StatsPass(job, fs, made, full, now);
    var captured := Midway(job, fs, made, CapturePath(ino));
    assert StagedAlone(Midway(job, fs, made, CaptureStat), full, made, now + 2) == StagedAlone(captured, full, made, now + 3);
    assert StagedAlone(captured, full, made, now + 3) == StagedAlone(StagedWriter(job, fs, made), full, made, now + 4);
  }

  lemma StatsPass(job: Job, fs: FS, made: Handle, full: FS, now: nat)
    requires Pinned(full, made)
    ensures StagedAlone(Midway(job, fs, made, ApplyMode), full, made, now)
            == StagedAlone(Midway(job, fs, made, CaptureStat), full, made, now + 2)
  {
    hide Claimed;
    assert StagedAlone(Midway(job, fs, made, ApplyMode), full, made, now)
           == StagedAlone(Midway(job, fs, made, SecondStat), full, made, now + 1);
    assert StagedAlone(Midway(job, fs, made, SecondStat), full, made, now + 1)
           == StagedAlone(Midway(job, fs, made, CaptureStat), full, made, now + 2);
  }

  /** What a caller can look up beforehand: the bytes fit the commit's own re-read, and
      the target is as the entry point demands. */
  predicate Replaceable(job: Job, fs: FS) {
    && |job.contents| <= MAX_READ_BYTES
    && (ObjectAt(fs, job.target).None? || IsRegular(fs, job.target))
    && (job.mode.IfAbsent? ==> ObjectAt(fs, job.target).None?)
    && (job.mode.IfDigest? ==>
          var current := ReadBounded(fs, job.target, MAX_READ_BYTES);
          current.Some? && Sha256(current.value) == job.mode.expected)
  }

  lemma StagedAdmitsIff(job: Job, fs: FS, made: Handle)
    requires CanStage(job, fs, made)
    ensures Admits(StagedWriter(job, fs, made), WithStaged(job, fs, made)) <==> Replaceable(job, fs)
  {
    var w, full := StagedWriter(job, fs, made), WithStaged(job, fs, made);
    TargetUndisturbed(job, fs, made);
    assert At(full, job.directory) == Some(fs.names[job.directory]);
    assert Contents(full, w.temporary) == Some(job.contents) && w.temporary == Claimed(job, fs);
    assert At(full, w.temporary) == Some(made.ino);
    hide WithStaged, StagedWriter, Claimed;
    assert Holds(TargetKind, w, full) <==> ObjectAt(fs, job.target).None? || IsRegular(fs, job.target);
    assert Holds(StagedBytes, w, full) <==> |job.contents| <= MAX_READ_BYTES;
    assert Holds(TargetKind, w, full) ==> Holds(Swap, w, full);
    assert Holds(TargetDigest, w, full) || !job.mode.IfDigest? <==>
             (job.mode.IfDigest? ==> var current := ReadBounded(fs, job.target, MAX_READ_BYTES);
                                     current.Some? && Sha256(current.value) == job.mode.expected);
    forall c | Replaceable(job, fs) && Applies(c, job.mode) ensures Holds(c, w, full) {
      match c case _ =>
    }
    if Admits(w, full) {
      assert Applies(TargetKind, job.mode) && Applies(StagedBytes, job.mode);
      assert job.mode.IfAbsent? ==> Applies(TargetAbsent, job.mode);
      assert job.mode.IfDigest? ==> Applies(TargetDigest, job.mode);
    }
  }

  lemma TargetUndisturbed(job: Job, fs: FS, made: Handle)
    requires CanStage(job, fs, made)
    ensures ObjectAt(WithStaged(job, fs, made), job.target) == ObjectAt(fs, job.target)
    ensures At(WithStaged(job, fs, made), job.target) != Some(made.ino)
  {
    assert job.target in fs.names ==> fs.names[job.target] in fs.names.Values;
  }

  /** Left alone, staging and committing succeed exactly when the target is as the
      caller expects and the bytes are at most 16 MiB; then the target holds the bytes
      and no other entry has changed, the temporary being gone. Otherwise every entry
      is as it was. */
  lemma LoneReplacement(job: Job, fs: FS, made: Handle)
    requires CanStage(job, fs, made) && !job.mode.Abandon?
    ensures var (w, staged) := StagedAlone(Fresh(job), fs, made, 0);
            && w.pc.Verify? && Pinned(staged, w.staged)
            && var (done, after) := Alone(w, staged, 7);
               && (done.pc == Done(Committed) <==> Replaceable(job, fs))
               && (Replaceable(job, fs) ==>
                     && Contents(after, job.target) == Some(job.contents)
                     && after.names == fs.names[job.target := made.ino])
               && (!Replaceable(job, fs) ==> after.names == fs.names)
  {
    StagingSucceeds(job, fs, made);
    StagedAdmitsIff(job, fs, made);
    TargetUndisturbed(job, fs, made);
    var w, full := StagedWriter(job, fs, made), WithStaged(job, fs, made);
    AloneCommit(w, full, 7);
    if Replaceable(job, fs) {
      RenameInstalls(full, w.temporary, job.target);
    } else {
      assert At(full, w.temporary) == Some(made.ino);
      assert Unlinked(full, w.temporary).names == fs.names;
    }
  }

  /** Both names taken, or nowhere to stage into. */
  predicate CannotStage(job: Job, fs: FS) {
    || Claimed(job, fs) in fs.names
    || !IsDirectory(fs, job.directory) || job.directory !in fs.canonical
  }

  /** Otherwise staging alone fails as such and leaves every entry as it was. */
  lemma LoneStageFails(job: Job, fs: FS, made: Handle)
    requires UnusedIdentity(fs, made) && CannotStage(job, fs)
    ensures var (w, staged) := StagedAlone(Fresh(job), fs, made, 0);
            && !w.pc.Claim? && (w.Open() ==> Pinned(staged, w.staged))
            && var (done, after) := Alone(w, staged, 8);
               done.pc == Done(Failed(StageFailed)) && after.names == fs.names
  {
    if Claimed(job, fs) in fs.names {
      var retry := Fresh(job).(pc := Claim(true), temporary := job.second);
      assert StagedAlone(Fresh(job), fs, made, 0) == StagedAlone(retry, fs, made, 1);
      assert StagedAlone(retry, fs, made, 1) == (retry.(pc := Done(Failed(StageFailed))), fs);
    } else {
      var full := WithStaged(job, fs, made);
      ClaimingSucceeds(job, fs, made);
      var now :| StagedAlone(Fresh(job), fs, made, 0)
                 == StagedAlone(Midway(job, fs, made, ApplyMode), full, made, now);
      NothingToCapture(job, fs, made, now);
      CleanedUp(job, fs, made);
    }
  }

  lemma NothingToCapture(job: Job, fs: FS, made: Handle, now: nat)
    requires UnusedIdentity(fs, made) && CannotStage(job, fs) && Claimed(job, fs) !in fs.names
    ensures StagedAlone(Midway(job, fs, made, ApplyMode), WithStaged(job, fs, made), made, now)
            == (Midway(job, fs, made, Cleanup(Failed(StageFailed))), WithStaged(job, fs, made))
  {
    var full := WithStaged(job, fs, made);
    var stat := Midway(job, fs, made, CaptureStat);
    DirectoryUndisturbed(job, fs, made);
    assert Pinned(full, made) && full.canonical == fs.canonical;
    hide WithStaged, Claimed;
    StatsPass(job, fs, made, full, now);
    if IsDirectory(full, job.directory) {
      var path := stat.(pc := CapturePath(At(full, job.directory).value));
      assert StagedAlone(stat, full, made, now + 2) == StagedAlone(path, full, made, now + 3);
      assert StagedAlone(path, full, made, now + 3)
             == (Midway(job, fs, made, Cleanup(Failed(StageFailed))), full);
    } else {
      assert StagedAlone(stat, full, made, now + 2)
             == (Midway(job, fs, made, Cleanup(Failed(StageFailed))), full);
    }
  }

  lemma DirectoryUndisturbed(job: Job, fs: FS, made: Handle)
    requires UnusedIdentity(fs, made) && Claimed(job, fs) !in fs.names
    ensures IsDirectory(WithStaged(job, fs, made), job.directory) == IsDirectory(fs, job.directory)
  {
    assert job.directory in fs.names ==> fs.names[job.directory] in fs.names.Values;
  }

  lemma CleanedUp(job: Job, fs: FS, made: Handle)
    requires UnusedIdentity(fs, made) && Claimed(job, fs) !in fs.names
    ensures var (done, after) := Alone(Midway(job, fs, made, Cleanup(Failed(StageFailed))), WithStaged(job, fs, made), 8);
            done.pc == Done(Failed(StageFailed)) && after.names == fs.names
  {
    var full, name := WithStaged(job, fs, made), Claimed(job, fs);
    var w := Midway(job, fs, made, Cleanup(Failed(StageFailed)));
    assert NamesStaged(w, full) && Unlinked(full, name).names == fs.names;
    hide WithStaged, Claimed;
    var remove := w.(pc := Remove(Failed(StageFailed)));
    assert Alone(w, full, 8) == Alone(remove, full, 9);
    assert Alone(remove, full, 9) == (w.(pc := Done(Failed(StageFailed))), Unlinked(full, name));
  }
}
