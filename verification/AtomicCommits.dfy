/** Runs in which every commit is one step: compare-and-swap and create-if-absent
    between writers that do not interfere inside each other's commits. */
module AtomicCommits {
  import opened Common
  import opened Filesystem
  import opened AtomicProtocol
  import opened AtomicAlone

  datatype Act = Commit(writer: Writer) | Elsewhere

  /** A writer that has staged its bytes and is about to commit. */
  predicate Staged(w: Writer, fs: FS) {
    w.pc == Verify(ParentStat) && Pinned(fs, w.staged)
  }

  /** `states[t]` is the file system before `acts[t]`. Other steps are unrestricted. */
  ghost predicate Run(states: seq<FS>, acts: seq<Act>) {
    && |states| == |acts| + 1
    && forall t :: 0 <= t < |acts| && acts[t].Commit? ==>
         && Staged(acts[t].writer, states[t])
         && states[t + 1] == Alone(acts[t].writer, states[t], 0).1
  }

  /** Step `t` is a commit to `target` that returned Ok. */
  ghost predicate Succeeds(states: seq<FS>, acts: seq<Act>, t: nat, target: Path)
    requires Run(states, acts) && t < |acts|
  {
    && acts[t].Commit?
    && acts[t].writer.job.target == target
    && Alone(acts[t].writer, states[t], 0).0.pc == Done(Committed)
  }

  /** A successful commit replaced exactly what its mode allows by its staged bytes. */
  lemma SuccessReplacesExpected(states: seq<FS>, acts: seq<Act>, t: nat, target: Path)
    requires Run(states, acts) && t < |acts| && Succeeds(states, acts, t, target)
    ensures var job := acts[t].writer.job;
            && Contents(states[t + 1], target) == Some(job.contents)
            && (job.mode.IfAbsent? ==> ObjectAt(states[t], target).None?)
            && (job.mode.IfDigest? ==>
                  && Contents(states[t], target).Some?
                  && Sha256(Contents(states[t], target).value) == job.mode.expected)
  {
    var w := acts[t].writer;
    AloneCommit(w, states[t], 0);
    assert Holds(StagedBytes, w, states[t]) && Holds(Swap, w, states[t]);
    RenameInstalls(states[t], w.temporary, target);
    if w.job.mode.IfDigest? {
      assert Holds(TargetDigest, w, states[t]);
    } else if w.job.mode.IfAbsent? {
      assert Holds(TargetAbsent, w, states[t]);
    }
  }

  // ---- no lost update, in any run ----

  /** If the target differs between two states, some step in between changed it. */
  lemma {:induction false} ChangedBetween(states: seq<FS>, target: Path, i: nat, j: nat)
    requires i <= j < |states| && Contents(states[i], target) != Contents(states[j], target)
    ensures exists t :: i <= t < j && Contents(states[t], target) != Contents(states[t + 1], target)
    decreases j - i
  {
    if Contents(states[j - 1], target) != Contents(states[j], target) {
      assert Contents(states[j - 1], target) != Contents(states[j - 1 + 1], target);
    } else {
      ChangedBetween(states, target, i, j - 1);
    }
  }

  /** A successful digest commit that follows any successful commit expected exactly what
      that one wrote, or somebody changed the target in between. */
  lemma NoLostUpdate(states: seq<FS>, acts: seq<Act>, target: Path, i: nat, j: nat)
    requires Run(states, acts) && i < j < |acts|
    requires Succeeds(states, acts, i, target) && Succeeds(states, acts, j, target)
    requires acts[j].writer.job.mode.IfDigest?
    ensures acts[j].writer.job.mode.expected == Sha256(acts[i].writer.job.contents)
            || exists t :: i < t < j && Contents(states[t], target) != Contents(states[t + 1], target)
  {
    SuccessReplacesExpected(states, acts, i, target);
    SuccessReplacesExpected(states, acts, j, target);
    if Contents(states[i + 1], target) != Contents(states[j], target) {
      ChangedBetween(states, target, i + 1, j);
    }
  }

  /** One change of what a target holds: a successful digest commit, or anything else. */
  datatype Link = Update(expected: Digest, written: Bytes) | Other(was: Option<Bytes>, now: Option<Bytes>)

  /** The changes of `target` over a run, in order; every successful digest commit is one. */
  ghost function Links(states: seq<FS>, acts: seq<Act>, target: Path): seq<Link>
    requires Run(states, acts)
  {
    if acts == [] then []
    else
      var last := |acts| - 1;
      var earlier := Links(states[..|acts|], acts[..last], target);
      var was, now := Contents(states[last], target), Contents(states[last + 1], target);
      if Succeeds(states, acts, last, target) && acts[last].writer.job.mode.IfDigest? then
        earlier + [Update(acts[last].writer.job.mode.expected, acts[last].writer.job.contents)]
      else if was != now then earlier + [Other(was, now)]
      else earlier
  }

  /** Each change was made to what the one before it left; an update, to exactly the
      content it expected. */
  ghost predicate Chain(first: Option<Bytes>, links: seq<Link>, final: Option<Bytes>) {
    if links == [] then first == final
    else
      var front := links[..|links| - 1];
      match links[|links| - 1]
      case Update(expected, written) =>
        final == Some(written) && expected.Sha256? && Chain(first, front, Some(expected.preimage))
      case Other(was, now) =>
        final == now && Chain(first, front, was)
  }

  /** Over every run the contents of every target form a chain: no successful digest
      commit ever replaces a version other than the one it expected. */
  lemma {:induction false} ContentsFormAChain(states: seq<FS>, acts: seq<Act>, target: Path)
    requires Run(states, acts)
    ensures Chain(Contents(states[0], target), Links(states, acts, target), Contents(states[|acts|], target))
  {
    if acts != [] {
      var last := |acts| - 1;
      var states', acts' := states[..|acts|], acts[..last];
      ContentsFormAChain(states', acts', target);
      var earlier := Links(states', acts', target);
      var all := Links(states, acts, target);
      if Succeeds(states, acts, last, target) && acts[last].writer.job.mode.IfDigest? {
        SuccessReplacesExpected(states, acts, last, target);
        assert all[..|all| - 1] == earlier;
      } else if Contents(states[last], target) != Contents(states[last + 1], target) {
        assert all[..|all| - 1] == earlier;
      }
    }
  }

  /** Nobody but successful digest commits changes what `target` holds. */
  ghost predicate OnlyUpdatesChange(states: seq<FS>, acts: seq<Act>, target: Path)
    requires Run(states, acts)
  {
    forall t :: 0 <= t < |acts| ==>
      || (Succeeds(states, acts, t, target) && acts[t].writer.job.mode.IfDigest?)
      || Contents(states[t + 1], target) == Contents(states[t], target)
  }

  /** Among digest commits alone the chain has no other links: each expected exactly what
      the one before it wrote. */
  lemma {:induction false} UpdatesAloneFollowEachOther(states: seq<FS>, acts: seq<Act>, target: Path)
    requires Run(states, acts) && OnlyUpdatesChange(states, acts, target)
    ensures forall link :: link in Links(states, acts, target) ==> link.Update?
  {
    if acts != [] {
      var last := |acts| - 1;
      var states', acts' := states[..|acts|], acts[..last];
      forall t | 0 <= t < last ensures Succeeds(states', acts', t, target) == Succeeds(states, acts, t, target) {}
      UpdatesAloneFollowEachOther(states', acts', target);
    }
  }

  /** A target present at `i` and absent at `j` was removed by some step in between. */
  lemma {:induction false} RemovedBetween(states: seq<FS>, target: Path, i: nat, j: nat)
    requires i <= j < |states|
    requires ObjectAt(states[i], target).Some? && ObjectAt(states[j], target).None?
    ensures exists t :: i <= t < j && ObjectAt(states[t], target).Some? && ObjectAt(states[t + 1], target).None?
    decreases j - i
  {
    if ObjectAt(states[j - 1], target).Some? {
      assert ObjectAt(states[j - 1 + 1], target).None?;
    } else {
      RemovedBetween(states, target, i, j - 1);
    }
  }

  /** Between two successful `commit_if_absent` on one target some step removed it. */
  lemma AbsentCommitsAreSeparatedByARemoval(states: seq<FS>, acts: seq<Act>, target: Path, i: nat, j: nat)
    requires Run(states, acts) && i < j < |acts|
    requires Succeeds(states, acts, i, target) && Succeeds(states, acts, j, target)
    requires acts[j].writer.job.mode.IfAbsent?
    ensures exists t :: i < t < j && ObjectAt(states[t], target).Some? && ObjectAt(states[t + 1], target).None?
  {
    SuccessReplacesExpected(states, acts, i, target);
    SuccessReplacesExpected(states, acts, j, target);
    RemovedBetween(states, target, i + 1, j);
  }
}
