/** Staging, committing and dropping as the code performs them, against a file system
    that changes under every call. Each run of the code is proved to be a run of the
    protocol, so the protocol's guarantees are guarantees of this code. */
module AtomicWrite {
  import opened Common
  import opened Filesystem
  import opened AtomicProtocol

  /** One system call: the file system it met and what the kernel decided. */
  datatype Moment = Moment(fs: FS, tick: Tick)

  /** The protocol writer after these calls. Each call comes after one change by the
      environment, so call number `i` is step `2 * i + 1` of its run. */
  ghost function Driven(start: Writer, trace: seq<Moment>): Writer {
    if trace == [] then start
    else
      var w := Driven(start, trace[..|trace| - 1]);
      var m := trace[|trace| - 1];
      if !MayCall(w, m) then w else Step(w, m.fs, m.tick, 2 * (|trace| - 1) + 1).0
  }

  /** The file system that the last of these calls leaves behind. */
  ghost function Left(start: Writer, trace: seq<Moment>): FS
    requires trace != []
  {
    var w := Driven(start, trace[..|trace| - 1]);
    var m := trace[|trace| - 1];
    if !MayCall(w, m) then m.fs else Step(w, m.fs, m.tick, 2 * (|trace| - 1) + 1).1
  }

  ghost predicate MayCall(w: Writer, m: Moment) {
    && !w.pc.Done?
    && (w.Open() ==> Pinned(m.fs, w.staged))
    && (w.pc.Claim? && !m.tick.io ==> m.tick.made.ino !in m.fs.objects)
  }

  /** Every call in the trace was one the protocol allows. */
  ghost predicate Proper(start: Writer, trace: seq<Moment>) {
    trace == [] ||
    (Proper(start, trace[..|trace| - 1]) && MayCall(Driven(start, trace[..|trace| - 1]), trace[|trace| - 1]))
  }

  predicate ReadOnly(pc: Pc) {
    pc.FirstStat? || pc.ApplyMode? || pc.SecondStat? || pc.CaptureStat? || pc.CapturePath?
    || (pc.Verify? && pc.check != Swap) || pc.DropHandle? || pc.DropName? || pc.Cleanup?
  }

  lemma LookKeepsHandle(w: Writer, fs: FS, tick: Tick, now: nat)
    requires ReadOnly(w.pc) && (w.Open() ==> Pinned(fs, w.staged))
    ensures var w' := Step(w, fs, tick, now).0; w'.staged == w.staged && (w'.Open() ==> w.Open())
    ensures Step(w, fs, tick, now).1 == fs
  {
    hide Holds;
  }

  lemma TraceGrows(start: Writer, trace: seq<Moment>, m: Moment)
    requires Proper(start, trace) && MayCall(Driven(start, trace), m)
    ensures Proper(start, trace + [m])
    ensures Driven(start, trace + [m]) == Step(Driven(start, trace), m.fs, m.tick, 2 * |trace| + 1).0
    ensures Left(start, trace + [m]) == Step(Driven(start, trace), m.fs, m.tick, 2 * |trace| + 1).1
  {
    hide Step, Pinned;
    assert (trace + [m])[..|trace|] == trace;
  }

  datatype Creation = Made(handle: Handle) | AlreadyExists | CannotCreate

  /** The calls of one writer. `writer` and `trace` are the protocol's view of them. */
  class Kernel {
    var fs: FS
    var pins: set<Handle>
    ghost const start: Writer
    ghost var trace: seq<Moment>
    ghost var writer: Writer

    ghost predicate Valid()
      reads this
    {
      && Proper(start, trace)
      && writer == Driven(start, trace)
      && (trace != [] ==> fs == Left(start, trace))
      && (forall h :: h in pins ==> Pinned(fs, h))
      && (writer.Open() ==> writer.staged in pins)
    }

    constructor (fs: FS, job: Job)
      ensures Valid() && this.fs == fs && pins == {} && trace == [] && writer == start == Fresh(job)
    {
      this.fs := fs;
      pins := {};
      start := Fresh(job);
      trace := [];
      writer := Fresh(job);
    }

    /** Anybody may change anything between two calls, except recycle a held object. */
    method Interfere()
      requires forall h :: h in pins ==> Pinned(fs, h)
      modifies this`fs
      ensures forall h :: h in pins ==> Pinned(fs, h)
    {
      var next: FS := *;
      if forall h | h in pins :: Pinned(next, h) {
        fs := next;
      }
    }

    /** A call that only looks. */
    method Observe() returns (io: bool)
      requires Valid() && ReadOnly(writer.pc)
      modifies this`fs, this`trace, this`writer
      ensures Valid() && |trace| == |old(trace)| + 1
      ensures old(writer).Open() ==> Pinned(fs, old(writer).staged)
      ensures writer == Step(old(writer), fs, Tick(io, Handle(0, 0), []), 2 * |old(trace)| + 1).0
    {
      hide Driven, Left, Proper, Step;
      Interfere();
      io := *;
      ghost var m := Moment(fs, Tick(io, Handle(0, 0), []));
      TraceGrows(start, trace, m);
      LookKeepsHandle(writer, fs, m.tick, 2 * |trace| + 1);
      trace, writer := trace + [m], Step(writer, fs, m.tick, 2 * |trace| + 1).0;
    }

    /** A look made by `commit_inner`: the check passes, or the commit is refused. */
    method Check() returns (io: bool)
      requires Valid() && writer.pc.Verify? && writer.pc.check != Swap
      modifies this`fs, this`trace, this`writer
      ensures Valid() && (old(writer).Open() ==> Pinned(fs, old(writer).staged))
      ensures var c := old(writer).pc.check;
              && writer == old(writer).(pc := writer.pc, passed := writer.passed)
              && writer.pc == if !io && Holds(c, old(writer), fs) then NextPc(c, writer.job.mode)
                              else DropHandle(Failed(Refusal(c, io)))
    {
      io := Observe();
    }

    /** A look made by `stage_atomic` that only fails on an I/O error. */
    method Probe() returns (io: bool)
      requires Valid() && (writer.pc.FirstStat? || writer.pc.ApplyMode? || writer.pc.SecondStat?)
      modifies this`fs, this`trace, this`writer
      ensures Valid()
      ensures writer == old(writer).(pc :=
                if !io then (match old(writer).pc case FirstStat => Write case ApplyMode => SecondStat case _ => CaptureStat)
                else if old(writer).pc.FirstStat? then Done(Failed(StageFailed))
                else Cleanup(Failed(StageFailed)))
    {
      io := Observe();
    }

    method CreateNew(path: Path) returns (r: Creation)
      requires Valid() && writer.pc.Claim? && path == writer.temporary
      modifies this
      ensures Valid()
      ensures match r
              case Made(h) => writer == old(writer).(pc := FirstStat, staged := h)
              case AlreadyExists =>
                writer == if old(writer).pc.retry then old(writer).(pc := Done(Failed(StageFailed)))
                          else old(writer).(pc := Claim(true), temporary := old(writer).job.second)
              case CannotCreate => writer == old(writer).(pc := Done(Failed(StageFailed)))
    {
      hide Driven, Left, Proper;
      Interfere();
      var io: bool, h: Handle := *, *;
      if h.ino in fs.objects {
        io := true;
      }
      ghost var m := Moment(fs, Tick(io, h, []));
      TraceGrows(start, trace, m);
      ghost var next := Step(writer, fs, m.tick, 2 * |trace| + 1);
      if io {
        r := CannotCreate;
      } else if path in fs.names {
        r := AlreadyExists;
      } else {
        r := Made(h);
        fs, pins := Created(fs, path, h), pins + {h};
      }
      trace, writer := trace + [m], next.0;
    }

    /** `write_all` then `sync_all`; a failing write may leave part of the bytes. */
    method WriteAll(h: Handle, bytes: Bytes) returns (io: bool)
      requires Valid() && writer.pc.Write? && h == writer.staged && bytes == writer.job.contents
      modifies this`fs, this`trace, this`writer
      ensures Valid()
      ensures writer == old(writer).(pc := if io then Cleanup(Failed(StageFailed)) else ApplyMode)
    {
      hide Driven, Left, Proper;
      Interfere();
      var partial: Bytes := *;
      io := *;
      ghost var m := Moment(fs, Tick(io, Handle(0, 0), partial));
      TraceGrows(start, trace, m);
      ghost var next := Step(writer, fs, m.tick, 2 * |trace| + 1);
      fs := Written(fs, h, if io then partial else bytes);
      trace, writer := trace + [m], next.0;
    }

    method Rename(from: Path, to: Path) returns (ok: bool)
      requires Valid() && writer.pc == Verify(Swap)
      requires from == writer.temporary && to == writer.job.target
      modifies this`fs, this`trace, this`writer
      ensures Valid()
      ensures writer.pc == if ok then Done(Committed) else DropHandle(Failed(ReplaceFailed))
      ensures writer == old(writer).(pc := writer.pc, passed := writer.passed)
    {
      hide Driven, Left, Proper;
      Interfere();
      var io: bool := *;
      ghost var m := Moment(fs, Tick(io, Handle(0, 0), []));
      TraceGrows(start, trace, m);
      ghost var next := Step(writer, fs, m.tick, 2 * |trace| + 1);
      var renamed := Renamed(fs, from, to);
      ok := !io && renamed.Some?;
      if ok {
        fs := renamed.value;
      }
      trace, writer := trace + [m], next.0;
    }

    method RemoveFile(path: Path)
      requires Valid() && writer.pc.Remove? && path == writer.temporary
      modifies this`fs, this`trace, this`writer
      ensures Valid() && writer == old(writer).(pc := Done(old(writer).pc.why))
    {
      hide Driven, Left, Proper;
      Interfere();
      var io: bool := *;
      ghost var m := Moment(fs, Tick(io, Handle(0, 0), []));
      TraceGrows(start, trace, m);
      ghost var next := Step(writer, fs, m.tick, 2 * |trace| + 1);
      if !io {
        fs := Unlinked(fs, path);
      }
      trace, writer := trace + [m], next.0;
    }

    method Close(h: Handle)
      requires Valid() && !writer.Open()
      modifies this`pins
      ensures Valid()
    {
      pins := pins - {h};
    }
  }

  /** Remove a pathname only while it is seen to name the retained identity. */
  method RemoveStagedIfMatching(kernel: Kernel, path: Path, identity: Ino)
    requires kernel.Valid() && kernel.writer.pc.Cleanup?
    requires path == kernel.writer.temporary && identity == kernel.writer.staged.ino
    modifies kernel
    ensures kernel.Valid()
    ensures kernel.writer.pc == Done(old(kernel.writer).pc.why)
  {
    hide Driven, Left, Proper;
    var io := kernel.Observe();
    if io || !IsRegular(kernel.fs, path) || At(kernel.fs, path) != Some(identity) {
      return;
    }
    kernel.RemoveFile(path);
  }

  /** `capture_parent_identity`: `lstat`, then `canonicalize`. */
  method CaptureParentIdentity(kernel: Kernel, directory: Path) returns (r: Option<ParentIdentity>)
    requires kernel.Valid() && kernel.writer.pc.CaptureStat? && directory == kernel.writer.job.directory
    modifies kernel
    ensures kernel.Valid()
    ensures match r
            case None => kernel.writer == old(kernel.writer).(pc := Cleanup(Failed(StageFailed)))
            case Some(p) =>
              kernel.writer == old(kernel.writer).(
                parent := p,
                pc := if old(kernel.writer).job.mode.Abandon? then DropHandle(Dropped) else Verify(ParentStat))
  {
    hide Driven, Left, Proper;
    var io := kernel.Observe();
    if io || !IsDirectory(kernel.fs, directory) {
      return None;
    }
    var ino := At(kernel.fs, directory).value;
    io := kernel.Observe();
    if io || directory !in kernel.fs.canonical {
      return None;
    }
    return Some(ParentIdentity(kernel.fs.canonical[directory], ino));
  }

  /** One staged replacement; `directory` is the parent of the temporary. */
  class StagedWrite {
    const temporary: Path
    const target: Path
    const directory: Path
    const stagedIdentity: Ino
    const stagedSha256: Digest
    const parentIdentity: ParentIdentity
    var stagedFile: Option<Handle>
    var committed: bool

    constructor (temporary: Path, target: Path, directory: Path, file: Handle, sha: Digest, parent: ParentIdentity)
      ensures this.temporary == temporary && this.target == target && this.directory == directory
      ensures stagedFile == Some(file) && stagedIdentity == file.ino && stagedSha256 == sha
      ensures parentIdentity == parent && !committed
    {
      this.temporary, this.target, this.directory := temporary, target, directory;
      this.stagedFile, this.stagedIdentity, this.stagedSha256 := Some(file), file.ino, sha;
      this.parentIdentity, this.committed := parent, false;
    }

    /** This value is the one the protocol writer stands for. */
    ghost predicate Represents(w: Writer)
      reads this
    {
      && temporary == w.temporary && target == w.job.target && directory == w.job.directory
      && stagedIdentity == w.staged.ino && stagedSha256 == Sha256(w.job.contents) && parentIdentity == w.parent
      && (w.Open() ==> stagedFile == Some(w.staged))
      && (committed <==> w.pc == Done(Committed))
    }

    /** `verify_parent_identity`. */
    method VerifyParent(kernel: Kernel) returns (same: bool)
      requires kernel.Valid() && Represents(kernel.writer) && kernel.writer.pc == Verify(ParentStat)
      modifies kernel
      ensures kernel.Valid() && Represents(kernel.writer) && kernel.writer.job == old(kernel.writer).job
      ensures kernel.writer.pc == if same then Verify(TargetKind) else DropHandle(Failed(ParentChanged))
    {
      var io := kernel.Check();
      if io || !IsDirectory(kernel.fs, directory) || At(kernel.fs, directory) != Some(parentIdentity.ino) {
        return false;
      }
      io := kernel.Check();
      same := !io && directory in kernel.fs.canonical && kernel.fs.canonical[directory] == parentIdentity.canonical;
    }

    /** The target is absent or a regular file, and as the caller expects it. */
    method CheckTarget(kernel: Kernel, expected: Option<Digest>, requireAbsent: bool) returns (r: Option<Failure>)
      requires kernel.Valid() && Represents(kernel.writer) && kernel.writer.pc == Verify(TargetKind)
      requires requireAbsent <==> kernel.writer.job.mode.IfAbsent?
      requires match expected
               case None => !kernel.writer.job.mode.IfDigest?
               case Some(d) => kernel.writer.job.mode == IfDigest(d)
      modifies kernel
      ensures kernel.Valid() && Represents(kernel.writer) && kernel.writer.job == old(kernel.writer).job
      ensures kernel.writer.pc == if r.None? then Verify(HandleStat) else DropHandle(Failed(r.value))
    {
      hide Driven, Left, Proper;
      var io := kernel.Check();
      if io {
        return Some(TargetUnreadable);
      }
      if ObjectAt(kernel.fs, target).Some? && !IsRegular(kernel.fs, target) {
        return Some(TargetIsNotARegularFile);
      }
      if requireAbsent {
        io := kernel.Check();
        if io {
          return Some(TargetUnreadable);
        }
        if ObjectAt(kernel.fs, target).Some? {
          return Some(TargetChanged);
        }
      }
      if expected.Some? {
        io := kernel.Check();
        if io {
          return Some(TargetUnreadable);
        }
        var current := ReadBounded(kernel.fs, target, MAX_READ_BYTES);
        if current.None? || Sha256(current.value) != expected.value {
          return Some(TargetChanged);
        }
      }
      return None;
    }

    /** `staged_path_matches_identity`: the handle, then the pathname. */
    method StagedPathMatchesIdentity(kernel: Kernel) returns (same: bool)
      requires kernel.Valid() && Represents(kernel.writer)
      requires kernel.writer.pc == Verify(HandleStat) || kernel.writer.pc.DropHandle?
      requires kernel.writer.pc.DropHandle? ==> kernel.writer.pc.why != Committed
      modifies kernel
      ensures kernel.Valid() && Represents(kernel.writer) && kernel.writer.job == old(kernel.writer).job
      ensures old(kernel.writer).pc.Verify? ==>
                kernel.writer.pc == if same then Verify(StagedBytes) else DropHandle(Failed(StagedIdentityUnverifiable))
      ensures old(kernel.writer).pc.DropHandle? ==>
                kernel.writer.pc ==
                  if same then Cleanup(old(kernel.writer).pc.why) else Done(old(kernel.writer).pc.why)
    {
      hide Driven, Left, Proper;
      assert stagedFile.Some? && stagedFile.value.ino == stagedIdentity;
      var io := kernel.Observe();
      if io {
        return false;
      }
      io := kernel.Observe();
      same := !io && IsRegular(kernel.fs, temporary) && At(kernel.fs, temporary) == Some(stagedIdentity);
    }

    /** `commit_inner`, without the drop that follows a refusal. */
    method CommitInner(kernel: Kernel, expected: Option<Digest>, requireAbsent: bool) returns (r: Option<Failure>)
      requires kernel.Valid() && Represents(kernel.writer) && kernel.writer.pc == Verify(ParentStat)
      requires requireAbsent <==> kernel.writer.job.mode.IfAbsent?
      requires match expected
               case None => !kernel.writer.job.mode.IfDigest?
               case Some(d) => kernel.writer.job.mode == IfDigest(d)
      modifies kernel, this`committed
      ensures kernel.Valid() && Represents(kernel.writer)
      ensures kernel.writer.pc == if r.None? then Done(Committed) else DropHandle(Failed(r.value))
    {
      var same := VerifyParent(kernel);
      if !same {
        return Some(ParentChanged);
      }
      r := CheckTarget(kernel, expected, requireAbsent);
      if r.Some? {
        return;
      }
      same := StagedPathMatchesIdentity(kernel);
      if !same {
        return Some(StagedIdentityUnverifiable);
      }
      r := Replace(kernel);
    }

    /** The staged bytes are still the caller's; then the rename. */
    method Replace(kernel: Kernel) returns (r: Option<Failure>)
      requires kernel.Valid() && Represents(kernel.writer) && kernel.writer.pc == Verify(StagedBytes)
      modifies kernel, this`committed
      ensures kernel.Valid() && Represents(kernel.writer)
      ensures kernel.writer.pc == if r.None? then Done(Committed) else DropHandle(Failed(r.value))
    {
      hide Driven, Left, Proper;
      var io := kernel.Check();
      var found := ReadBounded(kernel.fs, temporary, MAX_READ_BYTES);
      if io || found.None? || Sha256(found.value) != stagedSha256 {
        return Some(StagedIdentityUnverifiable);
      }
      var renamed := kernel.Rename(temporary, target);
      if !renamed {
        return Some(ReplaceFailed);
      }
      committed := true;
      return None;
    }

    method Drop(kernel: Kernel)
      requires kernel.Valid() && Represents(kernel.writer)
      requires kernel.writer.pc == Done(Committed) || (kernel.writer.pc.DropHandle? && kernel.writer.pc.why != Committed)
      modifies kernel, this`stagedFile
      ensures kernel.Valid()
      ensures kernel.writer.pc == if committed then Done(Committed) else Done(old(kernel.writer).pc.why)
    {
      if !committed {
        var same := StagedPathMatchesIdentity(kernel);
        if same {
          kernel.Close(stagedFile.value);
          stagedFile := None;
          RemoveStagedIfMatching(kernel, temporary, stagedIdentity);
        }
      }
    }

    /** Commit and let go. The run just made is a run of the protocol, ending with the
        outcome this method reports. */
    method Commit(kernel: Kernel, expected: Option<Digest>, requireAbsent: bool) returns (r: Option<Failure>)
      requires kernel.Valid() && Represents(kernel.writer) && kernel.writer.pc == Verify(ParentStat)
      requires requireAbsent <==> kernel.writer.job.mode.IfAbsent?
      requires match expected
               case None => !kernel.writer.job.mode.IfDigest?
               case Some(d) => kernel.writer.job.mode == IfDigest(d)
      modifies kernel, this
      ensures kernel.Valid()
      ensures kernel.writer.pc == Done(if r.None? then Committed else Failed(r.value))
    {
      r := CommitInner(kernel, expected, requireAbsent);
      Drop(kernel);
    }
  }

  /** `stage_atomic`: claim a fresh name, at most twice, write, and capture identities. */
  method StageAtomic(kernel: Kernel, directory: Path, first: Path, second: Path, target: Path, contents: Bytes,
                     ghost mode: Mode)
    returns (r: Option<StagedWrite>)
    requires kernel.Valid() && kernel.writer == Fresh(Job(directory, first, second, target, contents, mode))
    requires !mode.Abandon?
    modifies kernel
    ensures kernel.Valid()
    ensures r.None? ==> kernel.writer.pc == Done(Failed(StageFailed))
    ensures r.Some? ==> fresh(r.value) && r.value.Represents(kernel.writer) && kernel.writer.pc == Verify(ParentStat)
    ensures r.Some? ==> kernel.writer.job == old(kernel.writer).job
  {
    hide Driven, Left, Proper, Step;
    var temporary, attempts := first, 0;
    while attempts < 2
      invariant 0 <= attempts <= 2
      invariant kernel.Valid() && kernel.writer.job == Job(directory, first, second, target, contents, mode)
      invariant kernel.writer.pc == if attempts == 2 then Done(Failed(StageFailed)) else Claim(attempts == 1)
      invariant attempts < 2 ==> temporary == kernel.writer.temporary
    {
      var created := kernel.CreateNew(temporary);
      match created
      case Made(file) =>
        r := FillStaged(kernel, temporary, file, directory, target, contents);
        return;
      case AlreadyExists =>
        attempts, temporary := attempts + 1, second;
      case CannotCreate =>
        return None;
    }
    return None;
  }

  method FillStaged(kernel: Kernel, temporary: Path, file: Handle, directory: Path, target: Path, contents: Bytes)
    returns (r: Option<StagedWrite>)
    requires kernel.Valid() && kernel.writer.pc.FirstStat? && kernel.writer.staged == file
    requires kernel.writer.temporary == temporary && !kernel.writer.job.mode.Abandon?
    requires kernel.writer.job.directory == directory && kernel.writer.job.target == target
    requires kernel.writer.job.contents == contents
    modifies kernel
    ensures kernel.Valid()
    ensures r.None? ==> kernel.writer.pc == Done(Failed(StageFailed))
    ensures r.Some? ==> fresh(r.value) && r.value.Represents(kernel.writer) && kernel.writer.pc == Verify(ParentStat)
    ensures r.Some? ==> kernel.writer.job == old(kernel.writer).job
  {
    hide Driven, Left, Proper, Step;
    r := None;
    var io := kernel.Probe();
    if io {
      kernel.Close(file);
      return;
    }
    io := kernel.WriteAll(file, contents);
    if !io {
      io := kernel.Probe();
    }
    if !io {
      io := kernel.Probe();
    }
    if !io {
      var parent := CaptureParentIdentity(kernel, directory);
      if parent.Some? {
        var staged := new StagedWrite(temporary, target, directory, file, Sha256(contents), parent.value);
        return Some(staged);
      }
    }
    kernel.Close(file);
    RemoveStagedIfMatching(kernel, temporary, file.ino);
  }

  // ---- every run of the code is a run of the protocol ----

  /** The events of a trace: a change by the environment before every call. */
  ghost function Events(job: Job, trace: seq<Moment>): seq<Event> {
    if trace == [] then [Begin(0, job)]
    else
      var m := trace[|trace| - 1];
      Events(job, trace[..|trace| - 1]) + [Environment(m.fs), Call(0, m.tick)]
  }

  lemma {:induction false} CodeRunsTheProtocol(init: FS, job: Job, trace: seq<Moment>)
    requires Proper(Fresh(job), trace)
    ensures Legal(init, Events(job, trace))
    ensures var world := Reached(init, Events(job, trace));
            && world.writers == map[0 := Driven(Fresh(job), trace)] && world.writers[0].job == job
            && |world.actors| == 2 * |trace| && world.Shaped()
            && world.Now() == if trace == [] then init else Left(Fresh(job), trace)
  {
    if trace == [] {
      RunGrows(init, [], Begin(0, job));
      assert [] + [Begin(0, job)] == Events(job, trace);
    } else {
      var n := |trace| - 1;
      var m, before := trace[n], trace[..n];
      CodeRunsTheProtocol(init, job, before);
      var e := Events(job, before);
      PairOfSteps(init, e, Driven(Fresh(job), before), m, n);
      StepKeepsJob(Driven(Fresh(job), before), m.fs, m.tick, 2 * n + 1);
      hide Step;
      assert Events(job, trace) == e + [Environment(m.fs), Call(0, m.tick)];
    }
  }

  lemma StepKeepsJob(w: Writer, fs: FS, tick: Tick, now: nat)
    requires !w.pc.Done? && (w.Open() ==> Pinned(fs, w.staged))
    ensures Step(w, fs, tick, now).0.job == w.job
  {
    hide Holds, Renamed;
  }

  lemma PairOfSteps(init: FS, events: seq<Event>, w: Writer, m: Moment, n: nat)
    requires Legal(init, events) && MayCall(w, m)
    requires Reached(init, events).Shaped()
    requires Reached(init, events).writers == map[0 := w] && |Reached(init, events).actors| == 2 * n
    ensures var more := events + [Environment(m.fs), Call(0, m.tick)];
            && Legal(init, more)
            && Reached(init, more).writers == map[0 := Step(w, m.fs, m.tick, 2 * n + 1).0]
            && |Reached(init, more).actors| == 2 * n + 2 && Reached(init, more).Shaped()
            && Reached(init, more).Now() == Step(w, m.fs, m.tick, 2 * n + 1).1
  {
    hide Step, Pinned;
    var world := Reached(init, events);
    var middle := events + [Environment(m.fs)];
    RunGrows(init, events, Environment(m.fs));
    RunGrows(init, middle, Call(0, m.tick));
    assert middle + [Call(0, m.tick)] == events + [Environment(m.fs), Call(0, m.tick)];
  }

  /** Where the protocol is once this code has run: one writer, in this state, and this
      file system. */
  ghost predicate RanTo(job: Job, w: Writer, fs: FS) {
    exists world :: Reachable(world) && world.Shaped() && world.writers == map[0 := w] && w.job == job && world.Now() == fs
  }

  function ModeOf(expected: Option<Digest>, requireAbsent: bool): Mode {
    if requireAbsent then IfAbsent else if expected.Some? then IfDigest(expected.value) else Unconditional
  }

  /** Stage and commit, as every caller does: what the code reports and the file system
      it leaves are those of a run of the protocol. */
  method StageAndCommit(kernel: Kernel, directory: Path, first: Path, second: Path, target: Path, contents: Bytes,
                        expected: Option<Digest>, requireAbsent: bool)
    returns (r: Option<Failure>)
    requires kernel.Valid() && kernel.trace == [] && (requireAbsent ==> expected.None?)
    requires kernel.start == Fresh(Job(directory, first, second, target, contents, ModeOf(expected, requireAbsent)))
    modifies kernel
    ensures kernel.writer.pc == Done(if r.None? then Committed else Failed(r.value))
    ensures RanTo(kernel.start.job, kernel.writer, kernel.fs)
  {
    hide Left, Proper, Step;
    ghost var init := kernel.fs;
    var staged := StageAtomic(kernel, directory, first, second, target, contents, ModeOf(expected, requireAbsent));
    if staged.None? {
      r := Some(StageFailed);
    } else {
      r := staged.value.Commit(kernel, expected, requireAbsent);
    }
    CodeIsReachable(init, kernel.start.job, kernel.trace);
  }

  lemma CodeIsReachable(init: FS, job: Job, trace: seq<Moment>)
    requires Proper(Fresh(job), trace)
    ensures RanTo(job, Driven(Fresh(job), trace), if trace == [] then init else Left(Fresh(job), trace))
  {
    CodeRunsTheProtocol(init, job, trace);
    var world := Reached(init, Events(job, trace));
    assert Reachable(world);
  }
}
