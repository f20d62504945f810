/** Why a replacement fails: every failure reported has its cause, and left alone each
    failure is reported exactly when its cause is there. */
module AtomicFailures {
  import opened Common
  import opened Filesystem
  import opened AtomicProtocol
  import opened AtomicAlone

  // ---- in every run ----

  /** The writer has failed in this way, though it may still be cleaning up. */
  ghost predicate FailedWith(w: Writer, f: Failure) {
    || ((w.pc.DropHandle? || w.pc.DropName? || w.pc.Cleanup? || w.pc.Remove?) && w.pc.why == Failed(f))
    || w.pc == Done(Failed(f))
  }

  /** A target that `commit_if_absent` or `commit_if_digest` did not expect: present, or
      missing, over 16 MiB or with another digest. */
  predicate Unexpected(job: Job, fs: FS) {
    || (job.mode.IfAbsent? && ObjectAt(fs, job.target).Some?)
    || (job.mode.IfDigest? &&
        match Contents(fs, job.target)
        case None => true
        case Some(bytes) => |bytes| > 16 * 1024 * 1024 || Sha256(bytes) != job.mode.expected)
  }

  predicate NotRegular(job: Job, fs: FS) {
    ObjectAt(fs, job.target).Some? && !IsRegular(fs, job.target)
  }

  /** What the file system or the call was like when a writer failed in this way. */
  ghost predicate Cause(f: Failure, w: Writer, fs: FS, io: bool) {
    match f
    case StageFailed =>
      io || w.temporary in fs.names || !IsDirectory(fs, w.job.directory) || w.job.directory !in fs.canonical
    case ParentChanged =>
      || io || !IsDirectory(fs, w.job.directory) || At(fs, w.job.directory) != Some(w.parent.ino)
      || w.job.directory !in fs.canonical || fs.canonical[w.job.directory] != w.parent.canonical
    case TargetIsNotARegularFile => !io && NotRegular(w.job, fs)
    case TargetChanged => !io && Unexpected(w.job, fs)
    case TargetUnreadable => io
    case StagedIdentityUnverifiable =>
      || io || !IsRegular(fs, w.temporary) || At(fs, w.temporary) != Some(w.staged.ino)
      || Contents(fs, w.temporary) != Some(w.job.contents) || |w.job.contents| > MAX_READ_BYTES
    case ReplaceFailed => io || Renamed(fs, w.temporary, w.job.target).None?
  }

  lemma StepFails(w: Writer, fs: FS, tick: Tick, now: nat, f: Failure)
    requires !w.pc.Done? && (w.Open() ==> Pinned(fs, w.staged)) && Orderly(w)
    requires !FailedWith(w, f) && FailedWith(Step(w, fs, tick, now).0, f)
    ensures Cause(f, Step(w, fs, tick, now).0, fs, tick.io)
  {
    if w.pc.Verify? {
      hide CommitStep;
      CheckFails(w, fs, tick, now, f);
    } else {
      hide Holds, Renamed, Unexpected, NotRegular;
    }
  }

  lemma CheckFails(w: Writer, fs: FS, tick: Tick, now: nat, f: Failure)
    requires w.pc.Verify? && Applies(w.pc.check, w.job.mode) && FailedWith(CommitStep(w, fs, tick, now).0, f)
    ensures Cause(f, CommitStep(w, fs, tick, now).0, fs, tick.io)
  {
    match w.pc.check case _ =>
  }

  lemma FailureStays(w: Writer, fs: FS, tick: Tick, now: nat, f: Failure, seen: FS, io: bool)
    requires !w.pc.Done? && (w.Open() ==> Pinned(fs, w.staged)) && FailedWith(w, f)
    ensures FailedWith(Step(w, fs, tick, now).0, f)
    ensures Cause(f, w, seen, io) <==> Cause(f, Step(w, fs, tick, now).0, seen, io)
  {
    var w' := Step(w, fs, tick, now).0;
    assert w'.job == w.job && w'.temporary == w.temporary && w'.staged == w.staged && w'.parent == w.parent;
  }

  /** In every run, a writer that has failed met the cause of its failure at one of its
      own calls: this is what a caller may conclude from each failure. */
  lemma {:induction false} EveryFailureHasItsCause(init: FS, events: seq<Event>, id: nat, f: Failure)
    returns (i: nat, tick: Tick)
    requires Legal(init, events) && id in Reached(init, events).writers
    requires FailedWith(Reached(init, events).writers[id], f)
    ensures i < |events| && events[i] == Call(id, tick) && Legal(init, events[..i])
    ensures Reached(init, events[..i]).Shaped()
    ensures Cause(f, Reached(init, events).writers[id], Reached(init, events[..i]).Now(), tick.io)
    decreases |events|
  {
    hide Step, Cause, Inv;
    assert events != [];
    var n := |events| - 1;
    var before, e := events[..n], events[n];
    var world := Reached(init, before);
    EveryRunIsSound(init, before);
    if e.Call? && e.id == id && !FailedWith(world.writers[id], f) {
      i, tick := n, e.tick;
      OrderlyIn(world, id);
      StepFails(world.writers[id], world.Now(), e.tick, |world.actors|, f);
    } else {
      i, tick := EveryFailureHasItsCause(init, before, id, f);
      assert before[..i] == events[..i];
      if e.Call? && e.id == id {
        FailureStays(world.writers[id], world.Now(), e.tick, |world.actors|, f, Reached(init, events[..i]).Now(), tick.io);
      }
    }
  }

  lemma OrderlyIn(world: World, id: nat)
    requires Inv(world) && id in world.writers
    ensures Orderly(world.writers[id])
  {
    hide Orderly, Evidence, Held, SwapRecorded, Discreet, Confined;
  }

  /** Without an I/O error of its own no writer ever reports an unreadable target. */
  lemma NoFaultNeverUnreadable(init: FS, events: seq<Event>, id: nat)
    requires Legal(init, events) && id in Reached(init, events).writers
    requires forall i :: 0 <= i < |events| && events[i].Call? && events[i].id == id ==> !events[i].tick.io
    ensures !FailedWith(Reached(init, events).writers[id], TargetUnreadable)
  {
    if FailedWith(Reached(init, events).writers[id], TargetUnreadable) {
      var i, tick := EveryFailureHasItsCause(init, events, id, TargetUnreadable);
    }
  }

  /** Which failure an I/O error gives, by the call it strikes. */
  lemma FaultsAreReported(w: Writer, fs: FS, tick: Tick, now: nat)
    requires w.pc.Verify? && tick.io
    ensures CommitStep(w, fs, tick, now).1 == fs
    ensures FailedWith(CommitStep(w, fs, tick, now).0,
                       match w.pc.check
                       case ParentStat => ParentChanged
                       case ParentPath => ParentChanged
                       case TargetKind => TargetUnreadable
                       case TargetAbsent => TargetUnreadable
                       case TargetDigest => TargetUnreadable
                       case HandleStat => StagedIdentityUnverifiable
                       case StagedName => StagedIdentityUnverifiable
                       case StagedBytes => StagedIdentityUnverifiable
                       case Swap => ReplaceFailed)
  {
    match w.pc.check case _ =>
  }

  // ---- left alone ----

  /** Left alone, a commit fails at the first check that does not hold. */
  lemma {:induction false} AloneFails(w: Writer, fs: FS, now: nat, c: Check)
    requires w.pc.Verify? && Applies(w.pc.check, w.job.mode) && Pinned(fs, w.staged)
    requires Applies(c, w.job.mode) && !Holds(c, w, fs) && Rank(w.pc.check) <= Rank(c)
    requires forall d :: Applies(d, w.job.mode) && Rank(w.pc.check) <= Rank(d) < Rank(c) ==> Holds(d, w, fs)
    ensures Alone(w, fs, now).0.pc == Done(Failed(Refusal(c, false)))
    decreases CallsLeft(w.pc)
  {
    var d := w.pc.check;
    CallsLeftDecreases(w, fs, Quiet, now);
    NextSkipsNothing(d, w.job.mode);
    RankIsInjective(c, d);
    var (w', fs') := Step(w, fs, Quiet, now);
    if d == c {
      DropRemovesOnlyTheStagedObject(w', fs', now + 1);
    } else {
      assert forall x :: Holds(x, w', fs) == Holds(x, w, fs);
      AloneFails(w', fs', now + 1, c);
    }
  }

  lemma RankIsInjective(c: Check, d: Check)
    ensures Rank(c) == Rank(d) ==> c == d
  {}

  /** After an undisturbed stage only the target and the size of the bytes can be wrong. */
  lemma StagedHolds(job: Job, fs: FS, made: Handle)
    requires CanStage(job, fs, made)
    ensures var w, full := StagedWriter(job, fs, made), WithStaged(job, fs, made);
            && Holds(ParentStat, w, full) && Holds(ParentPath, w, full)
            && Holds(HandleStat, w, full) && Holds(StagedName, w, full)
            && (Holds(TargetKind, w, full) <==> !NotRegular(job, fs))
            && (Holds(StagedBytes, w, full) <==> |job.contents| <= MAX_READ_BYTES)
  {
    var w, full := StagedWriter(job, fs, made), WithStaged(job, fs, made);
    TargetUndisturbed(job, fs, made);
    assert At(full, job.directory) == Some(fs.names[job.directory]);
    assert At(full, w.temporary) == Some(made.ino) && Contents(full, w.temporary) == Some(job.contents);
    assert w.temporary == Claimed(job, fs);
  }

  lemma StagedTarget(job: Job, fs: FS, made: Handle)
    requires CanStage(job, fs, made)
    ensures var w, full := StagedWriter(job, fs, made), WithStaged(job, fs, made);
            && (job.mode.IfAbsent? ==> (Holds(TargetAbsent, w, full) <==> !Unexpected(job, fs)))
            && (job.mode.IfDigest? ==> (Holds(TargetDigest, w, full) <==> !Unexpected(job, fs)))
            && (!job.mode.IfAbsent? && !job.mode.IfDigest? ==> !Unexpected(job, fs))
  {
    TargetUndisturbed(job, fs, made);
  }

  /** A replacement left alone reports each failure if and only if its cause is there, an
      earlier check's before a later one's. */
  lemma LoneFailure(job: Job, fs: FS, made: Handle)
    requires CanStage(job, fs, made) && !job.mode.Abandon?
    ensures var (w, staged) := StagedAlone(Fresh(job), fs, made, 0);
            && w.pc.Verify? && Pinned(staged, w.staged)
            && var outcome := Alone(w, staged, 7).0.pc;
               && (outcome == Done(Failed(TargetIsNotARegularFile)) <==> NotRegular(job, fs))
               && (outcome == Done(Failed(TargetChanged)) <==> !NotRegular(job, fs) && Unexpected(job, fs))
               && (outcome == Done(Failed(StagedIdentityUnverifiable)) <==>
                     !NotRegular(job, fs) && !Unexpected(job, fs) && |job.contents| > 16 * 1024 * 1024)
               && (outcome == Done(Committed) <==>
                     !NotRegular(job, fs) && !Unexpected(job, fs) && |job.contents| <= 16 * 1024 * 1024)
  {
    StagingSucceeds(job, fs, made);
    var w, full := StagedWriter(job, fs, made), WithStaged(job, fs, made);
    assert w.job == job && Pinned(full, made);
    LoneOutcome(job, fs, made);
  }

  lemma LoneOutcome(job: Job, fs: FS, made: Handle)
    requires CanStage(job, fs, made) && Pinned(WithStaged(job, fs, made), made)
    ensures Alone(StagedWriter(job, fs, made), WithStaged(job, fs, made), 7).0.pc ==
            Done(if NotRegular(job, fs) then Failed(TargetIsNotARegularFile)
                 else if Unexpected(job, fs) then Failed(TargetChanged)
                 else if |job.contents| > MAX_READ_BYTES then Failed(StagedIdentityUnverifiable)
                 else Committed)
  {
    var w, full := StagedWriter(job, fs, made), WithStaged(job, fs, made);
    StagedHolds(job, fs, made);
    StagedTarget(job, fs, made);
    assert w.job == job && w.staged == made && w.pc == Verify(ParentStat);
    hide StagedWriter, WithStaged, Holds, NotRegular, Unexpected, Alone;
    if NotRegular(job, fs) {
      AloneFails(w, full, 7, TargetKind);
    } else if Unexpected(job, fs) {
      AloneFails(w, full, 7, if job.mode.IfAbsent? then TargetAbsent else TargetDigest);
    } else if |job.contents| > MAX_READ_BYTES {
      AloneFails(w, full, 7, StagedBytes);
    } else {
      LoneSuccess(job, fs, made);
    }
  }

  lemma LoneSuccess(job: Job, fs: FS, made: Handle)
    requires CanStage(job, fs, made) && Pinned(WithStaged(job, fs, made), made)
    requires !NotRegular(job, fs) && !Unexpected(job, fs) && |job.contents| <= MAX_READ_BYTES
    ensures Alone(StagedWriter(job, fs, made), WithStaged(job, fs, made), 7).0.pc == Done(Committed)
  {
    assert Replaceable(job, fs);
    StagedAdmitsIff(job, fs, made);
    AloneCommit(StagedWriter(job, fs, made), WithStaged(job, fs, made), 7);
  }

  // ---- an error while staging ----

  /** An I/O error at any call of the stage fails it as such. What is left behind is
      nothing, except that after a failing first `fstat` the temporary stays. */
  lemma FaultWhileStaging(w: Writer, fs: FS, tick: Tick, now: nat)
    requires Staging(w.pc) && tick.io
    requires w.Open() ==> Pinned(fs, w.staged) && At(fs, w.temporary) == Some(w.staged.ino)
    ensures var (w', fs') := Step(w, fs, tick, now);
            && !w'.pc.Claim? && !w'.Open()
            && Alone(w', fs', now + 1).0.pc == Done(Failed(StageFailed))
            && Alone(w', fs', now + 1).1.names ==
               if w.pc.Claim? || w.pc.FirstStat? then fs.names else fs.names - {w.temporary}
  {
    var (w', fs') := Step(w, fs, tick, now);
    if !w.pc.Claim? && !w.pc.FirstStat? {
      assert w'.pc == Cleanup(Failed(StageFailed)) && NamesStaged(w', fs');
      CleanupAlone(w', fs', now + 1);
    }
  }

  lemma CleanupAlone(w: Writer, fs: FS, now: nat)
    requires w.pc.Cleanup? && NamesStaged(w, fs)
    ensures Alone(w, fs, now) == (w.(pc := Done(w.pc.why)), Unlinked(fs, w.temporary))
  {
    var remove := w.(pc := Remove(w.pc.why));
    assert Alone(w, fs, now) == Alone(remove, fs, now + 1);
    assert Alone(remove, fs, now + 1) == (w.(pc := Done(w.pc.why)), Unlinked(fs, w.temporary));
  }
}
