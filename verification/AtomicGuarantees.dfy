/** What a staged replacement guarantees over every run of the protocol, and exactly
    where its checks stop guaranteeing. */
module AtomicGuarantees {
  import opened Common
  import opened Filesystem
  import opened AtomicProtocol

  ghost predicate Succeeded(world: World, id: nat) {
    Reachable(world) && id in world.writers && world.writers[id].pc == Done(Committed)
  }

  ghost predicate Recorded(world: World, id: nat, c: Check) {
    && id in world.writers
    && c in world.writers[id].passed
    && world.writers[id].passed[c] + 1 < |world.history|
  }

  /** The file system that check `c` of writer `id` looked at. */
  ghost function Seen(world: World, id: nat, c: Check): FS {
    if Recorded(world, id, c) then world.history[world.writers[id].passed[c]] else FS(map[], map[], map[])
  }

  /** The file system right after the rename. */
  ghost function Swapped(world: World, id: nat): FS {
    if Recorded(world, id, Swap) then world.history[world.writers[id].passed[Swap] + 1] else FS(map[], map[], map[])
  }

  lemma EvidenceOf(world: World, id: nat)
    requires Reachable(world) && id in world.writers
    ensures world.Shaped() && Orderly(world.writers[id]) && Evidence(world, id, world.writers[id])
  {
    hide Reachable, Evidence, Orderly, Discreet, Confined, Held, SwapRecorded;
    ReachableIsSound(world);
  }

  /** A successful commit made every check its mode asks for, and each was true of the
      file system it looked at. */
  lemma CommitPassedEveryCheck(world: World, id: nat, c: Check)
    requires Succeeded(world, id) && Applies(c, world.writers[id].job.mode)
    ensures Recorded(world, id, c) && Holds(c, world.writers[id], Seen(world, id, c))
    ensures world.Shaped() && world.actors[world.writers[id].passed[c]] == Some(id)
  {
    hide Reachable, Holds;
    EvidenceOf(world, id);
    assert Rank(c) < 9;
  }

  /** The checks were made in program order, the rename last. */
  lemma ChecksInProgramOrder(world: World, id: nat, c: Check, d: Check)
    requires Succeeded(world, id)
    requires Applies(c, world.writers[id].job.mode) && Applies(d, world.writers[id].job.mode)
    requires Rank(c) < Rank(d)
    ensures Recorded(world, id, c) && Recorded(world, id, d)
    ensures world.writers[id].passed[c] < world.writers[id].passed[d]
  {
    CommitPassedEveryCheck(world, id, c);
    CommitPassedEveryCheck(world, id, d);
    hide Reachable, Holds;
    EvidenceOf(world, id);
  }

  lemma SwapWasRecorded(world: World, id: nat)
    requires Reachable(world) && id in world.writers
    ensures world.Shaped() && SwapRecorded(world, world.writers[id])
  {
    hide Reachable, Evidence, Orderly, Discreet, Confined, Held, SwapRecorded;
    ReachableIsSound(world);
  }

  /** The rename made the target name what the temporary then named, while the handle
      on the staged object was still open. */
  lemma RenameInstalled(world: World, id: nat)
    requires Succeeded(world, id)
    ensures Recorded(world, id, Swap) && Recorded(world, id, StagedName) && Recorded(world, id, StagedBytes)
    ensures var w := world.writers[id];
            && Renamed(Seen(world, id, Swap), w.temporary, w.job.target) == Some(Swapped(world, id))
            && At(Swapped(world, id), w.job.target) == At(Seen(world, id, Swap), w.temporary)
            && ObjectAt(Swapped(world, id), w.job.target) == ObjectAt(Seen(world, id, Swap), w.temporary)
            && Pinned(Seen(world, id, Swap), w.staged)
  {
    CommitPassedEveryCheck(world, id, StagedName);
    CommitPassedEveryCheck(world, id, StagedBytes);
    CommitPassedEveryCheck(world, id, Swap);
    SwapWasRecorded(world, id);
    hide Reachable, Holds, Renamed;
    var w := world.writers[id];
    RenameInstalls(Seen(world, id, Swap), w.temporary, w.job.target);
  }

  /** The identity check closes the window before it: the installed object is the
      staged one if and only if the temporary named the same object at the rename as
      at the check. The open handle makes that object the very one that was created,
      not a later one with a recycled identity. */
  lemma StagedObjectInstalledIff(world: World, id: nat)
    requires Succeeded(world, id)
    ensures var w := world.writers[id];
            var after := Swapped(world, id);
            && (At(Seen(world, id, Swap), w.temporary) == At(Seen(world, id, StagedName), w.temporary)
                <==> At(after, w.job.target) == Some(w.staged.ino))
            && (At(after, w.job.target) == Some(w.staged.ino) ==>
                  ObjectAt(after, w.job.target).value.birth == w.staged.birth)
  {
    hide Reachable, Seen, Swapped, Renamed;
    CommitPassedEveryCheck(world, id, StagedName);
    RenameInstalled(world, id);
  }

  /** The content check closes its own window: if what the temporary names is the same
      at the rename as at that check, the target now holds exactly the staged bytes. */
  lemma StagedBytesInstalled(world: World, id: nat)
    requires Succeeded(world, id)
    requires ObjectAt(Seen(world, id, Swap), world.writers[id].temporary)
             == ObjectAt(Seen(world, id, StagedBytes), world.writers[id].temporary)
    ensures Contents(Swapped(world, id), world.writers[id].job.target) == Some(world.writers[id].job.contents)
  {
    hide Reachable, Seen, Swapped, Renamed;
    CommitPassedEveryCheck(world, id, StagedBytes);
    RenameInstalled(world, id);
  }

  /** What was replaced was a regular file or nothing, if the target is at the rename as
      the kind check found it. */
  lemma TargetReplacedWasRegular(world: World, id: nat)
    requires Succeeded(world, id)
    requires ObjectAt(Seen(world, id, Swap), world.writers[id].job.target)
             == ObjectAt(Seen(world, id, TargetKind), world.writers[id].job.target)
    ensures var before, target := Seen(world, id, Swap), world.writers[id].job.target;
            ObjectAt(before, target).None? || IsRegular(before, target)
  {
    hide Reachable, Seen;
    CommitPassedEveryCheck(world, id, TargetKind);
  }

  /** `commit_if_absent` replaced nothing, if the target is at the rename as its absence
      check found it. */
  lemma TargetReplacedWasAbsent(world: World, id: nat)
    requires Succeeded(world, id) && world.writers[id].job.mode.IfAbsent?
    requires ObjectAt(Seen(world, id, Swap), world.writers[id].job.target)
             == ObjectAt(Seen(world, id, TargetAbsent), world.writers[id].job.target)
    ensures ObjectAt(Seen(world, id, Swap), world.writers[id].job.target).None?
  {
    hide Reachable, Seen;
    CommitPassedEveryCheck(world, id, TargetAbsent);
  }

  /** `commit_if_digest` replaced content with the expected digest, if the target is at
      the rename as the digest check found it. */
  lemma TargetReplacedHadDigest(world: World, id: nat)
    requires Succeeded(world, id) && world.writers[id].job.mode.IfDigest?
    requires ObjectAt(Seen(world, id, Swap), world.writers[id].job.target)
             == ObjectAt(Seen(world, id, TargetDigest), world.writers[id].job.target)
    ensures var content := Contents(Seen(world, id, Swap), world.writers[id].job.target);
            content.Some? && Sha256(content.value) == world.writers[id].job.mode.expected
  {
    hide Reachable, Seen;
    CommitPassedEveryCheck(world, id, TargetDigest);
  }

  /** The parent has its captured identity and canonical name at the rename, if
      neither changed since the parent checks. */
  lemma ParentAsCaptured(world: World, id: nat)
    requires Succeeded(world, id)
    requires var w, before := world.writers[id], Seen(world, id, Swap);
             && At(before, w.job.directory) == At(Seen(world, id, ParentStat), w.job.directory)
             && w.job.directory in before.canonical
             && w.job.directory in Seen(world, id, ParentPath).canonical
             && before.canonical[w.job.directory] == Seen(world, id, ParentPath).canonical[w.job.directory]
    ensures var w, before := world.writers[id], Seen(world, id, Swap);
            && At(before, w.job.directory) == Some(w.parent.ino)
            && before.canonical[w.job.directory] == w.parent.canonical
  {
    hide Reachable, Seen;
    CommitPassedEveryCheck(world, id, ParentStat);
    CommitPassedEveryCheck(world, id, ParentPath);
  }

  /** Whatever a run did in between, a commit that succeeded wrote no more than its own
      re-read of the staged bytes can hold. */
  lemma SucceededContentsFit(world: World, id: nat)
    requires Succeeded(world, id)
    ensures |world.writers[id].job.contents| <= MAX_READ_BYTES
  {
    CommitPassedEveryCheck(world, id, StagedBytes);
    hide Reachable, Seen;
  }

  /** Another directory, born at another time, under the captured identity. */
  function ParentReplaced(fs: FS, w: Writer, birth: nat): FS {
    fs.(names := fs.names[w.job.directory := w.parent.ino],
        objects := fs.objects[w.parent.ino := Object(birth, Directory)])
  }

  /** No handle on the parent is kept. In every reachable state where a writer is about
      to check its parent and nobody holds the captured identity open, the environment
      may put another directory under that identity, and the check passes. */
  lemma ParentCheckIsByIdentityOnly(world: World, id: nat, birth: nat, tick: Tick)
    requires Reachable(world) && id in world.writers
    requires world.writers[id].pc == Verify(ParentStat) && !tick.io
    requires forall other :: other in world.writers && world.writers[other].Open() ==>
               world.writers[other].staged.ino != world.writers[id].parent.ino
    ensures world.Shaped()
    ensures var w := world.writers[id];
            var replaced := Environment(ParentReplaced(world.Now(), w, birth));
            && Enabled(world, replaced)
            && var interfered := Apply(world, replaced);
               && Enabled(interfered, Call(id, tick))
               && var next := Apply(interfered, Call(id, tick));
                  && Reachable(next) && next.Shaped()
                  && next.writers[id].pc == Verify(ParentPath)
                  && ObjectAt(next.Now(), w.job.directory) == Some(Object(birth, Directory))
  {
    ReachableIsSound(world);
    var w := world.writers[id];
    var fs := ParentReplaced(world.Now(), w, birth);
    assert Enabled(world, Environment(fs)) by {
      forall other | other in world.writers && world.writers[other].Open()
        ensures Pinned(fs, world.writers[other].staged)
      {
        assert Held(world, world.writers[other]);
      }
    }
    hide Inv;
    ReachableStep(world, Environment(fs));
    var interfered := Apply(world, Environment(fs));
    ParentCheckPasses(interfered, id, birth, tick);
    ReachableStep(interfered, Call(id, tick));
  }

  lemma ParentCheckPasses(world: World, id: nat, birth: nat, tick: Tick)
    requires world.Shaped() && id in world.writers && world.writers[id].pc == Verify(ParentStat) && !tick.io
    requires Pinned(world.Now(), world.writers[id].staged)
    requires At(world.Now(), world.writers[id].job.directory) == Some(world.writers[id].parent.ino)
    requires ObjectAt(world.Now(), world.writers[id].job.directory) == Some(Object(birth, Directory))
    ensures Enabled(world, Call(id, tick))
    ensures var next := Apply(world, Call(id, tick));
            && next.Shaped() && next.writers[id].pc == Verify(ParentPath) && next.Now() == world.Now()
  {}

  /** The last window is open: once a writer is about to rename, whatever regular file
      the environment binds to the temporary is what the target ends up naming. */
  lemma LastWindowIsOpen(world: World, id: nat, fs: FS, tick: Tick)
    requires Reachable(world) && id in world.writers
    requires world.writers[id].pc == Verify(Swap) && !tick.io
    requires Enabled(world, Environment(fs))
    requires var w := world.writers[id];
             IsRegular(fs, w.temporary) && (ObjectAt(fs, w.job.target).None? || IsRegular(fs, w.job.target))
    ensures var interfered := Apply(world, Environment(fs));
            && Enabled(interfered, Call(id, tick))
            && var last := Apply(interfered, Call(id, tick));
               && Succeeded(last, id)
               && last.Shaped()
               && ObjectAt(last.Now(), last.writers[id].job.target) == ObjectAt(fs, world.writers[id].temporary)
  {
    ReachableStep(world, Environment(fs));
    var interfered := Apply(world, Environment(fs));
    ReachableStep(interfered, Call(id, tick));
    RenameInstalls(fs, world.writers[id].temporary, world.writers[id].job.target);
  }

  /** A writer that has not committed has never changed an entry other than its own
      temporary pathnames, nor any object but the one it staged: refused, failed and
      dropped writers leave the target as the environment left it. */
  lemma UncommittedWriterLeavesTargetAlone(world: World, id: nat, t: nat)
    requires Reachable(world)
    requires id in world.writers
    requires world.writers[id].pc != Done(Committed)
    requires t < |world.actors| && world.actors[t] == Some(id)
    ensures t + 1 < |world.history|
    ensures var w, before, after := world.writers[id], world.history[t], world.history[t + 1];
            && SameNamesExcept(before, after, {w.job.first, w.job.second})
            && SameObjects(before, after, w)
            && (w.job.target != w.job.first && w.job.target != w.job.second ==>
                  && (w.job.target !in before.names ==> w.job.target !in after.names)
                  && (At(before, w.job.target).Some? && At(before, w.job.target) != Some(w.staged.ino) ==>
                        ObjectAt(after, w.job.target) == ObjectAt(before, w.job.target)))
  {
    hide Evidence, Held, SwapRecorded, Holds;
    ReachableIsSound(world);
    var w, before, after := world.writers[id], world.history[t], world.history[t + 1];
    assert SameNamesExcept(before, after, {w.job.first, w.job.second}) && SameObjects(before, after, w);
  }
}
