# Siralos: a verified model of its hardest parts

A Dafny model of five components of Siralos and proofs of what they promise.

**Atomic staged replacement** (`Filesystem`, `AtomicProtocol`, `AtomicGuarantees`, `AtomicAlone`,
`AtomicFailures`, `AtomicCommits`, `AtomicWrite`). Replacing a file is a protocol against a file system that
anybody may change between any two system calls. `AtomicProtocol` has one transition per call, any number of
writers and an unrestricted environment; its invariant holds in every run. `AtomicGuarantees` says which
interference window each check closes, by an "if and only if" where there is one, and shows the window that
stays open. `AtomicWrite` is the code itself, on a mutable kernel object whose every call first lets the
environment interfere; every run of the code is proved to be a run of the protocol that ends in the same
file system, so the guarantees carry over. `AtomicAlone` is the undisturbed case, retry included;
`AtomicFailures` gives every failure its cause. `AtomicCommits` takes each commit as one step and proves,
for every run, that no update is lost unseen.

**Paging strategies and the GO gate** (`Scenarios`, `Search`, `Selection`, `Neighbors`, `Cost`, `Recall`,
`Gate`, `Policies`, `Witnesses`). The benchmark writes the same logic several times; the model keeps the
copies apart and proves that they agree. Deduplicated cost is the total length of a set of digests, whatever
the order of the loops. The nine-cell sweep collapses to four conditions, and each verdict of the policy has
its exact condition. `Witnesses` holds two concrete inputs, built as the builders demand and with the hits
that the search tool finds, on which the code does what its words rule out.

**Bounded workspace scan and context build** (`Trees`, `ListingOrder`, `ScanWalk`, `ScanReach`,
`ScanCounts`, `Flattening`, `ScanFiles`, `Summaries`, `Workspace`). A worklist walk on a shared budget
object agrees with plain recursion, and plain recursion with resolving paths one at a time; a greedy
admission loop; a second pass that verifies the first.

**Reference manifests** (`Manifest`, `ManifestCounts`). A stack-driven walk with four budgets agrees with a
recursive flatten, and fingerprints agree exactly when the trees hold the same files.

**Tokens, lock file and origins** (`Tokens`, `Lock`, `Origin`). One-shot write tokens, the round trip of the
workspace lock, and the normal form of repository origins.

`Common` and `Ordering` hold saturating arithmetic, digests, text lengths, string order and sorting.

## Where the code and its words disagree

The model follows the code.

- harness/src/context_benchmark.rs:2342-2349 calls "V3 recalls more than V2" impossible by construction. It
  is not: expanding a node that has only an identity hides the summary that an unexpanded hit would have
  been credited with. `Policies.PolicyExplained` gives the exact condition, and
  `Witnesses.VoidVerdictIsReachable` an input.
- crates/siralos-adapters/src/context_scan.rs:357-358 says that sorting makes enumeration order irrelevant.
  It does exactly while the entry budget covers the directory being read, or cannot help failing on it
  (`ListingOrder.OrderFreeIff`); past the ceiling, two enumerations of a flat workspace give two different
  file lists (`ListingOrder.FlatOrderFreeIff` with `ScanWalk.CollectAllFiles`).
- The decomposition (harness/src/context_benchmark.rs:856-1034) subtracts two costs that were both computed
  without deduplication, so what it reports as saved by deduplication is always zero (`Gate.Decompose`).
  The guard built on it can still fail: `Gate.GuardHolds` is the exact condition, and
  `Witnesses.GuardAloneCanRefuse` an input on which everything else says GO.
- Staging accepts any number of bytes, but a commit re-reads at most 16 MiB
  (crates/siralos-adapters/src/atomic.rs:480-495), so no run ever commits a larger
  replacement (`AtomicGuarantees.SucceededContentsFit`).
- The base GO rule (harness/src/context_benchmark.rs:1902-1903) is implied by the sweep
  (`Gate.RunBenchmark`).
- Normalizing an origin is not idempotent: a repo that ends in `.git` loses it, and adding the prefix can
  pass the length bound (`Origin.FixedPointIff`).

## Assumptions

- A digest is injective: `Sha256(bytes)` is a constructor. The digest of a canonical lock payload, a
  parameter, is assumed injective only in `Lock.KeptDigestMeansSameIdentities`; a manifest fingerprint is
  identified with the list it digests.
- A stored representation digest is the digest of its content (`Scenarios.WellDigested`). The store checks
  this for all content but empty content, which here may also carry the digest of nothing. An empty
  representation that claims another content's digest is outside the model.
- The bounded exact read is one step: all the bytes of a regular file, if and only if they fit. Inside it
  an inspection error counts as an I/O error.
- An identity is the Unix device and inode pair. Identities are recycled unless a handle holds the object;
  a `birth` that no call reports tells objects apart. Full pathnames are bound to objects directly, and
  canonical names may change arbitrarily.
- The search tool's hits and the tokenizer are parameters of the general results; `Search` models both on
  ASCII text, with the bonus for a node's kind and tier as a parameter, for the concrete inputs.
- The protection rule, the relative-path rule, the lossy UTF-8 decoder, directory listing orders, read sizes
  and nonce pathnames are parameters.
- Saturating `usize` sums are written out. Products of overhead and calls, doubled deduplication savings
  and loop counters are unbounded where the code does not saturate them.
- Names are compared by code point, which for UTF-8 is byte order; "." and ".." and "/" are not names.
- Cancellation, deadlines and a vanished root are one `stop` that may strike at any file.

## Model

| member | source | states |
|---|---|---|
| Filesystem.RenameInstalls | crates/siralos-adapters/src/atomic.rs:465-470 | a rename that succeeds makes the target name exactly the object the temporary named, frees the temporary unless both names were one object, and moves no other entry |
| AtomicProtocol.StepKeepsPins | crates/siralos-adapters/src/atomic.rs:296-309 | no call of any writer takes away an object that somebody holds open, so an identity behind an open handle is not recycled |
| AtomicProtocol.NextSkipsNothing | crates/siralos-adapters/src/atomic.rs:366-473 | going from one call of the commit to the next leaves no applicable check out |
| AtomicProtocol.StepPasses | crates/siralos-adapters/src/atomic.rs:366-473 | only a commit step adds to what has passed, it adds the one check it made, after every earlier one, and that check was true of the file system it looked at |
| AtomicProtocol.StepOrderly | crates/siralos-adapters/src/atomic.rs:366-640 | every call keeps program counter and passed checks consistent: a writer is committed if and only if its rename succeeded |
| AtomicProtocol.StepDiscreet | crates/siralos-adapters/src/atomic.rs:366-640 | apart from a successful rename, every call of a writer leaves all entries but its own two temporary names unchanged |
| AtomicProtocol.StepConfined | crates/siralos-adapters/src/atomic.rs:537-640 | every call of a writer leaves every object but the one it staged unchanged |
| AtomicProtocol.CallKeeps | crates/siralos-adapters/src/atomic.rs:366-640 | one call of one writer preserves the whole invariant for every writer |
| AtomicProtocol.EnvironmentKeeps | crates/siralos-adapters/src/atomic.rs:15-29 | an arbitrary change by anybody else, between any two calls, preserves the invariant; nothing is asked of it but that held objects are not recycled |
| AtomicProtocol.EveryRunIsSound | crates/siralos-adapters/src/atomic.rs:1-29 | the invariant holds after every interleaving of any number of writers with any environment |
| AtomicGuarantees.CommitPassedEveryCheck | crates/siralos-adapters/src/atomic.rs:366-473 | in every run, a commit that returned Ok made every check its entry point asks for, itself, and each was true at the moment it looked |
| AtomicGuarantees.ChecksInProgramOrder | crates/siralos-adapters/src/atomic.rs:366-473 | those checks happened in program order with the rename last, so each check closes the window before it |
| AtomicGuarantees.RenameInstalled | crates/siralos-adapters/src/atomic.rs:465-472 | after a commit that returned Ok the target names what the temporary named at the rename, while the staged handle was still open |
| AtomicGuarantees.StagedObjectInstalledIff | crates/siralos-adapters/src/atomic.rs:448-455 | the installed object is the staged one, by birth and not only by inode, if and only if the temporary was not rebound between the identity check and the rename |
| AtomicGuarantees.StagedBytesInstalled | crates/siralos-adapters/src/atomic.rs:456-464 | the target holds exactly the staged bytes if what the temporary names did not change between the content check and the rename |
| AtomicGuarantees.TargetReplacedWasRegular | crates/siralos-adapters/src/atomic.rs:388-403 | what was replaced was absent or a regular file if the target did not change after the kind check |
| AtomicGuarantees.TargetReplacedWasAbsent | crates/siralos-adapters/src/atomic.rs:404-420 | commit_if_absent replaced nothing if the target did not change after the absence check |
| AtomicGuarantees.TargetReplacedHadDigest | crates/siralos-adapters/src/atomic.rs:421-447 | commit_if_digest replaced content with exactly the expected digest if the target did not change after the digest check |
| AtomicGuarantees.ParentAsCaptured | crates/siralos-adapters/src/atomic.rs:380-387 | the parent has its captured inode and canonical name at the rename if neither changed after the parent checks |
| AtomicGuarantees.ParentCheckIsByIdentityOnly | crates/siralos-adapters/src/atomic.rs:230-252 | no handle on the parent is kept: from every reachable state in which a writer is about to check its parent and nobody holds the captured identity open, another directory of any birth can be put under that identity, and the check passes |
| AtomicGuarantees.SucceededContentsFit | crates/siralos-adapters/src/atomic.rs:476-495 | in every run, a commit that returned Ok wrote at most 16 MiB |
| AtomicGuarantees.LastWindowIsOpen | crates/siralos-adapters/src/atomic.rs:15-23 | the residual race is real: in every reachable state just before the rename, whatever regular file is then bound to the temporary is what a successful commit installs |
| AtomicGuarantees.UncommittedWriterLeavesTargetAlone | crates/siralos-adapters/src/atomic.rs:513-523 | in every run a writer that has not committed changed no entry but its temporaries and no object but its own; the target and what it holds are as the environment left them |
| AtomicAlone.DropRemovesOnlyTheStagedObject | crates/siralos-adapters/src/atomic.rs:513-523 | an uninterrupted Drop removes the temporary if and only if it still names the staged object, and touches nothing when it names a substitute |
| AtomicAlone.CallsLeftDecreases | crates/siralos-adapters/src/atomic.rs:366-523 | every call brings a writer closer to its end: staging, committing and dropping terminate |
| AtomicAlone.AloneCommit | crates/siralos-adapters/src/atomic.rs:366-473 | a commit nobody interferes with succeeds if and only if the file system meets every applicable check at once, and otherwise removes its temporary exactly if it still names the staged object |
| AtomicAlone.StagingSucceeds | crates/siralos-adapters/src/atomic.rs:537-640 | staging alone, with a real directory, either nonce name free and no I/O error, ends with exactly the bytes behind the claimed name and both identities captured; the retry is taken when the first name is taken |
| AtomicAlone.StagedAdmitsIff | crates/siralos-adapters/src/atomic.rs:366-470 | after such a stage all checks of the commit hold if and only if the target is as the entry point demands and the bytes fit the commit's own 16 MiB re-read |
| AtomicAlone.LoneReplacement | crates/siralos-adapters/src/atomic.rs:345-653 | total correctness of one replacement left alone, on the first or the second name: it succeeds if and only if the target is as expected and the bytes are at most 16 MiB, and then the target holds the bytes and every other entry is as before; otherwise every entry is as before |
| AtomicAlone.LoneStageFails | crates/siralos-adapters/src/atomic.rs:537-653 | when both names are taken or there is no real directory, staging alone fails as such and every entry is as before |
| AtomicFailures.EveryFailureHasItsCause | crates/siralos-adapters/src/atomic.rs:366-653 | in every run, a writer that failed met the cause of exactly that failure at one of its own calls: a parent, target, temporary or rename that was not as demanded, or an I/O error |
| AtomicFailures.NoFaultNeverUnreadable | crates/siralos-adapters/src/atomic.rs:388-440 | a writer without an I/O error of its own never reports an unreadable target, in any run |
| AtomicFailures.FaultsAreReported | crates/siralos-adapters/src/atomic.rs:366-470 | which failure an I/O error gives, by the call it strikes |
| AtomicFailures.LoneFailure | crates/siralos-adapters/src/atomic.rs:388-464 | left alone, each failure if and only if: not a regular file when the target is present and not regular; changed when it is present under commit_if_absent, or missing, over 16 MiB or of another digest under commit_if_digest; staged identity unverifiable when all that passes and the bytes exceed 16 MiB; success otherwise |
| AtomicFailures.FaultWhileStaging | crates/siralos-adapters/src/atomic.rs:557-640 | an I/O error while staging fails the stage and leaves no entry behind, except that after a failing first fstat the temporary stays |
| AtomicCommits.SuccessReplacesExpected | crates/siralos-adapters/src/atomic.rs:345-364 | with each commit one step, a successful commit leaves its staged bytes, after nothing (if absent) or after content with the expected digest (if digest) |
| AtomicCommits.NoLostUpdate | crates/siralos-adapters/src/atomic.rs:356-364 | in every run, whatever else happens: a successful digest commit that follows any successful commit on the target expected exactly what that one wrote, or some step in between changed the target |
| AtomicCommits.ContentsFormAChain | crates/siralos-adapters/src/atomic.rs:356-364 | over every run, unrestricted, the contents of a target form one chain of changes in which each successful digest commit is a link from exactly the content it expected to exactly its staged bytes |
| AtomicCommits.UpdatesAloneFollowEachOther | crates/siralos-adapters/src/atomic.rs:356-364 | among digest commits alone the chain has no other links, so each expected what the one before it wrote |
| AtomicCommits.AbsentCommitsAreSeparatedByARemoval | crates/siralos-adapters/src/atomic.rs:349-354 | before any successful commit_if_absent that follows another successful commit on the target, some step in between removed it |
| AtomicWrite.RemoveStagedIfMatching | crates/siralos-adapters/src/atomic.rs:700-711 | the cleanup is the protocol's cleanup: look once, remove only while the name is seen to carry the retained identity |
| AtomicWrite.CaptureParentIdentity | crates/siralos-adapters/src/atomic.rs:257-281 | lstat then canonicalize of a real directory, or a failed stage |
| AtomicWrite.StagedWrite.VerifyParent | crates/siralos-adapters/src/atomic.rs:286-294 | the two parent checks of the protocol, or ParentChanged |
| AtomicWrite.StagedWrite.CheckTarget | crates/siralos-adapters/src/atomic.rs:388-447 | the target checks of the protocol in order, with the failure each one reports |
| AtomicWrite.StagedWrite.StagedPathMatchesIdentity | crates/siralos-adapters/src/atomic.rs:498-511 | handle, then pathname: the identity check of the protocol, in a commit and in a drop |
| AtomicWrite.StagedWrite.Replace | crates/siralos-adapters/src/atomic.rs:456-472 | content check, then rename; committed is set exactly when the rename succeeded |
| AtomicWrite.StagedWrite.CommitInner | crates/siralos-adapters/src/atomic.rs:366-473 | all the checks and the rename; Ok exactly when the protocol writer is committed, otherwise the failure the protocol assigns |
| AtomicWrite.StagedWrite.Drop | crates/siralos-adapters/src/atomic.rs:513-523 | a committed value does nothing more; any other runs the protocol's drop to its end |
| AtomicWrite.StagedWrite.Commit | crates/siralos-adapters/src/atomic.rs:345-364 | commit followed by drop ends the protocol writer with exactly the outcome reported |
| AtomicWrite.StageAtomic | crates/siralos-adapters/src/atomic.rs:537-653 | two attempts at a fresh name, write, identities; a staged value that represents the protocol writer, or a failed stage |
| AtomicWrite.FillStaged | crates/siralos-adapters/src/atomic.rs:557-640 | after the name is claimed: every failure but that of the first fstat cleans up by identity |
| AtomicWrite.CodeRunsTheProtocol | crates/siralos-adapters/src/atomic.rs:366-653 | the calls the code makes, with arbitrary interference before each, are a legal run of the protocol, ending in the same writer and the same file system |
| AtomicWrite.StageAndCommit | crates/siralos-adapters/src/atomic.rs:345-364 | staging and committing reports the outcome, and leaves the file system, of a reachable world of the protocol, so every guarantee above is one of the code |
| Selection.CandidatesArePassing | harness/src/context_benchmark.rs:2836-2844 | the candidate list holds exactly the summary-matched, expandable hits over the overlap threshold |
| Selection.PassingIff | harness/src/context_benchmark.rs:2818-2844 | a hit passes exactly when it was matched by its summary, has a level, and its summary shares two different tokens with the query, or all there are if fewer |
| Scenarios.LevelsAreFirstChoices | harness/src/context_benchmark.rs:567-577 | paging expands to the first stored level of structured, detailed, summary, identity; the baseline counts the first stored of source, detailed, structured, summary, identity |
| Selection.FallbackIsBest | harness/src/context_benchmark.rs:2848-2870 | the fallback is the eligible hit that no eligible hit outranks (more overlap, then smaller id), or nothing when none is eligible |
| Selection.V2Expands | harness/src/context_benchmark.rs:2816-2879 | V2 expands every hit over the threshold, failing that the one best eligible hit, failing that nothing |
| Selection.V3ExpandsTheBest | harness/src/context_benchmark.rs:2880-2944 | V3 expands the single eligible hit that outranks all others, whether or not any passes the threshold |
| Selection.StrategiesFormAChain | harness/src/context_benchmark.rs:2799-3015 | top-1 is V3, top-k is within top-(k+1) and within V2, V2 within V1, top-k is V2 once k covers the pool, and for k at least 1 it is non-empty iff some summary hit is expandable; duplicate hits allowed |
| Selection.ExpandedIds | harness/src/context_benchmark.rs:2799-2946 | the loops of all three strategies compute the sets above |
| Selection.ExpandedByThreshold | harness/src/context_benchmark.rs:2816-2879 | the V2 branch, which collects a set, yields the ids of the list V3 collects |
| Selection.BestEligible | harness/src/context_benchmark.rs:2848-2870 | the fallback loop |
| Selection.BuildPool | harness/src/context_benchmark.rs:2899-2936 | the candidate list of V3 and top-k |
| Selection.ExpandedTopK | harness/src/context_benchmark.rs:2948-3015 | the first k of the ranked list, as a set |
| Neighbors.NeighborIdsIff | harness/src/context_benchmark.rs:3047-3062 | in terms of edges: a neighbour is a node that is no hit and is linked, by an edge in either direction, to some expanded node other than itself |
| Neighbors.RankingIsComplete | harness/src/context_benchmark.rs:3041-3081 | each such neighbour is ranked once, with the maximum over the expanded nodes linked to it of their half score, by score descending and id ascending |
| Neighbors.AdmittedAreTheFirstEight | harness/src/context_benchmark.rs:3077-3080 | eight are admitted, or all if fewer, and whoever is left out is outranked by every one admitted |
| Neighbors.HalfTowardZero | harness/src/context_benchmark.rs:3046 | halving truncates toward zero, for negative scores too |
| Neighbors.HitScoreIsTheLast | harness/src/context_benchmark.rs:3036-3045 | the score of an expanded node is that of its last hit |
| Neighbors.AdmissionSeesOnlyLinks | harness/src/context_benchmark.rs:3041-3081 | admission depends on nothing about the edges but which nodes are linked |
| Neighbors.ReversalIsNotSeen | harness/src/context_benchmark.rs:3048-3054 | reversing any edge changes no admission |
| Neighbors.AdmissionIgnoresOrder | harness/src/context_benchmark.rs:3041-3081 | admission depends on the edges as a set: not on their order or repetition, nor on the order of referrers |
| Neighbors.AddReferrer | harness/src/context_benchmark.rs:3044-3073 | one referrer's pass over the edges keeps the larger score of each neighbour |
| Neighbors.ScoreNeighbors | harness/src/context_benchmark.rs:3042-3073 | the map after all referrers is the map of maxima |
| Neighbors.NeighborCandidates | harness/src/context_benchmark.rs:3027-3082 | the admitted list is the first eight of that ranking and `generated` is the number of distinct non-hit neighbours |
| Cost.SumLenUnion | harness/src/context_benchmark.rs:1164-1200 | a set of digests never costs less than a part of it, nor more than its parts added |
| Cost.SurfacedIgnoresOrder | harness/src/context_benchmark.rs:1164-1200 | which digests are surfaced does not depend on the visiting order |
| Cost.SurfacedIff | harness/src/context_benchmark.rs:1157-1206 | the digests surfaced are exactly the summaries of all hits, those of the neighbours V2 admits, and what each expanded hit is expanded to |
| Cost.OrderOfExpansion | harness/src/context_benchmark.rs:826-843 | two orders of visiting different nodes that agree on what is expanded give the same sum, count and digests |
| Cost.DedupLoops | harness/src/context_benchmark.rs:1157-1206 | the deduplicated inspect, candidate and expand loops, in any visiting order, together cost the summed length of the set of distinct digests surfaced, saturating once |
| Cost.PlainLoops | harness/src/context_benchmark.rs:1100-1127 | without deduplication they cost the plain sum over visits |
| Cost.InspectDedupSaves | harness/src/context_benchmark.rs:1164-1172 | deduplicated inspection never costs more than plain inspection |
| Cost.ExpandDedupSaves | harness/src/context_benchmark.rs:1182-1200 | deduplicated expansion never costs more than plain expansion |
| Cost.EscalationCostChain | harness/src/context_benchmark.rs:2251-2331 | top-1 costs exactly what V3 costs, cost never falls as k grows, and no top-k point costs more than V2 or than V1, at every bytes-per-token and overhead |
| Cost.Inspect | harness/src/context_benchmark.rs:1164-1172 | the inspect loop, with or without deduplication |
| Cost.Expand | harness/src/context_benchmark.rs:1182-1200 | the expand loop: its sum, its surfaced set and the number of nodes it expanded |
| Cost.RunLoops | harness/src/context_benchmark.rs:791-854 | the three loops in any order of expansion are billed the summed length of distinct digests, or the plain sums |
| Cost.RunPaged | harness/src/context_benchmark.rs:1320-1506 | one scenario of run_strategy_with: price and tool calls of its strategy |
| Cost.RunBranches | harness/src/context_benchmark.rs:1093-1254 | run_strategy, with its loops written out per strategy, bills the same as run_strategy_with at 4 and 4 |
| Cost.VisitPlainly | harness/src/context_benchmark.rs:1100-1127 | the V1 branch bills plain sums |
| Cost.VisitWithNeighbours | harness/src/context_benchmark.rs:1128-1207 | the V2 branch bills distinct digests over hits, neighbours and expansions |
| Cost.VisitOnce | harness/src/context_benchmark.rs:1208-1244 | the V3 branch bills distinct digests over hits and expansions |
| Cost.CurveRises | harness/src/context_benchmark.rs:2251-2331 | the escalation curve, as the plain sums the code makes, rises with k; where they fit a usize its first point is exactly the cost of V3 and no point is above V2 or V1 |
| Cost.TopKPoint | harness/src/context_benchmark.rs:2256-2324 | one scenario of the curve: cost and calls are the plain sums over the top-k set, each distinct digest once |
| Cost.InspectExactly | harness/src/context_benchmark.rs:2293-2300 | its inspect loop |
| Cost.ExpandExactly | harness/src/context_benchmark.rs:2301-2316 | its expand loop |
| Recall.DepthAwareRecall | harness/src/context_benchmark.rs:2631-2657 | the loop counts the answer keys surfaced at their level or deeper |
| Recall.RecallBalance | harness/src/context_benchmark.rs:2601-2657 | conservation: from an expanded set to a larger one, recall changes by exactly the answers promoted less the answers demoted to a bare identity |
| Recall.RecallMonotone | harness/src/context_benchmark.rs:2601-2657 | when no answer that V2 expands has only an identity, V3 never recalls more than V2 and top-k recall never falls in k |
| Recall.TotalBalance | harness/src/context_benchmark.rs:2042-2121 | over all scenarios V2 and V3 differ by exactly what V2 promotes less what it demotes |
| Recall.TotalRecallAdds | harness/src/context_benchmark.rs:2042-2121 | total recall over two lists of scenarios is the sum of the totals |
| Recall.ComputeTotalRecall | harness/src/context_benchmark.rs:2042-2121 | the totals the report compares |
| Policies.EscalationNeverCostsMore | harness/src/context_benchmark.rs:2351-2352 | V3 never costs more than V2 in total, so "strictly cheaper" means "not equal" |
| Policies.PolicyExplained | harness/src/context_benchmark.rs:2334-2387 | each of the five verdicts by an if and only if: the floor, and whether V2 promotes more, as many or fewer answers than it demotes; the one called impossible by construction is given exactly when the floor holds and V2 demotes more |
| Policies.FloorIff | harness/src/context_benchmark.rs:2123-2151 | the floor by counts alone: the committed answers meet it, and so do those of the scenarios whenever there are as many |
| Policies.FloorIsALeastCount | harness/src/context_benchmark.rs:2497-2502 | the floor is a least number of structured answers, five or five fourteenths of the total if that is less, and no total of none meets it |
| Policies.AsRunAdds | harness/src/context_benchmark.rs:2128-2140 | the as-run counts are sums over scenarios |
| Policies.ComputeFloor | harness/src/context_benchmark.rs:2123-2151 | the census floor over committed and as-run answers, with the fallback when their totals differ |
| Policies.CountKeys | harness/src/context_benchmark.rs:2128-2140 | the as-run counts |
| Policies.ChoosePolicy | harness/src/context_benchmark.rs:2334-2387 | the policy part of run_benchmark reaches that verdict |
| Search.SearchIsExact | crates/siralos-adapters/src/tool/context.rs:321-427 | every hit is a node containing a term, ranked by score and then id, at most sixteen; when no more than sixteen match, every matching node is hit |
| Witnesses.VoidVerdictIsReachable | harness/src/context_benchmark.rs:2342-2349 | a concrete input takes that branch: two nodes the builders accept, found by the search tool for the query "xy", with the benchmark's own tokenizer and answer levels; V3 recalls an answer that V2 loses |
| Gate.ParametersReach | harness/src/context_benchmark.rs:1306-1554 | bytes-per-token and overhead never reach recall or calls, overhead never reaches the baseline and only raises the price |
| Gate.TotalsAdd | harness/src/context_benchmark.rs:1306-1554 | the totals of two lists of scenarios together are the totals of each, added |
| Gate.ParityIff | harness/src/context_benchmark.rs:1258-1271 | recall parity holds exactly when every answer of every scenario is hit, expanded by V2 and has a level, where the number of answers fits a usize |
| Gate.MarginIff | harness/src/context_benchmark.rs:1625-1626 | the margin is twice the price below the baseline; saturation makes no difference |
| Gate.MarginAntitone | harness/src/context_benchmark.rs:1625-1626 | a margin that holds at some overhead holds at every smaller one |
| Gate.SweepCollapses | harness/src/context_benchmark.rs:1604-1656 | all nine cells pass if and only if recall parity holds and the margin holds at overhead 16 for 3, 4 and 5 bytes per token |
| Gate.CellsAreTheGrid | harness/src/context_benchmark.rs:1607-1608 | the nine cells are the grid of 3, 4 and 5 bytes per token by 0, 8 and 16 overhead, each once |
| Gate.ComputeDeepAll | harness/src/context_benchmark.rs:608-623 | the baseline: the deepest representation of every node |
| Gate.ComputeRecall | harness/src/context_benchmark.rs:1258-1271 | the recall loop counts the answer keys that were hit, expanded and have a level |
| Gate.RunStrategy | harness/src/context_benchmark.rs:1044-1303 | run_strategy returns the totals of run_strategy_with at 4 and 4 |
| Gate.RunStrategyWith | harness/src/context_benchmark.rs:1306-1554 | the totals over scenarios at any bytes-per-token and overhead |
| Gate.ComputePaged | harness/src/context_benchmark.rs:712-855 | the four variants of the decomposition, which visit the expanded set in id order instead of hit order |
| Gate.VariantsAreRuns | harness/src/context_benchmark.rs:712-855 | when no node is hit twice, the deduplicated V2 variant costs what the V2 run costs and the plain exhaustive variant what the V1 run costs, although they visit in another order |
| Gate.InlinedSelection | harness/src/context_benchmark.rs:887-948 | the inlined copy of the V2 selection selects what expanded_ids_for_scenario selects |
| Gate.CostNoDedup | harness/src/context_benchmark.rs:858-1028 | the inlined no-dedup cost equals compute_paged(false, false) |
| Gate.Decompose | harness/src/context_benchmark.rs:704-1041 | per scenario the savings attributed to deduplication are always zero, and the rest add up to the total |
| Gate.DecomposeAll | harness/src/context_benchmark.rs:1577-1583 | so they are zero over all scenarios |
| Gate.RunCell | harness/src/context_benchmark.rs:1608-1655 | a cell's recall_ok is the same in every cell, its margin_ok is the margin, and its dedup_ok is always true |
| Gate.Sweep | harness/src/context_benchmark.rs:1604-1656 | the nine cells and their conjunction |
| Gate.DedupGuard | harness/src/context_benchmark.rs:1584-1602 | the guard fails exactly when per-scenario savings do not add up to the aggregate and the aggregate is positive but below the rerank savings |
| Gate.GuardRefusesIff | harness/src/context_benchmark.rs:1584-1602 | it refuses exactly when the savings of the scenarios do not add up to those of the whole and the whole saves something but less than reranking alone |
| Gate.GatedKeepsTheRest | harness/src/context_benchmark.rs:1564-1568 | gating keeps every scenario but the informational one, as often as it is given |
| Gate.GatedConcat | harness/src/context_benchmark.rs:1564-1568 | and keeps their order |
| Gate.RunBenchmark | harness/src/context_benchmark.rs:1902-1904 | GO, over exactly the scenarios other than the informational one, if and only if recall parity, the margin at overhead 16 for 3, 4 and 5 bytes per token, and the dedup guard: the base rule adds nothing |
| Witnesses.GuardAloneCanRefuse | harness/src/context_benchmark.rs:1584-1602 | a concrete input that the builders accept and the search tool finds on which recall parity and all margins hold and only the dedup guard fails, so all_ok and GO really differ |
| Trees.ListingSorts | crates/siralos-adapters/src/context_scan.rs:357-376 | whatever order a directory is listed in, the map filled from the listing iterates over its entries in name order |
| ListingOrder.OrderFreeIff | crates/siralos-adapters/src/context_scan.rs:357-376 | that makes the listing order of any directory irrelevant if and only if the remaining entry budget covers all of it or nothing of it, or exceeds its decodable names so that the read must fail |
| ListingOrder.FlatOrderFreeIff | crates/siralos-adapters/src/context_scan.rs:357-376 | lifted to the walk: the files collected from a flat root are the same for all enumerations if and only if the entry ceiling covers them; otherwise two enumerations give two different lists |
| ScanWalk.ScanBudget.constructor | crates/siralos-adapters/src/context_scan.rs:194-216 | the entry and byte ceilings, saturating and clamped |
| ScanWalk.CeilingsAre | crates/siralos-adapters/src/context_scan.rs:194-216 | sixteen entries for each node and one more, between 4096 and 16384; as many bytes as the nodes may hold, up to 64 MiB |
| ScanWalk.ScanBudget.ConsumeEntry | crates/siralos-adapters/src/context_scan.rs:218-225 | an entry is granted exactly while the ceiling is not reached; a refusal sets truncated |
| ScanWalk.ScanBudget.ReadLimit | crates/siralos-adapters/src/context_scan.rs:227-235 | the smaller of the file bound and what is left of the total |
| ScanWalk.ScanBudget.ChargeRead | crates/siralos-adapters/src/context_scan.rs:237-242 | reads are charged and never pass the ceiling |
| ScanWalk.ScanBudget.ChargeFailedRead | crates/siralos-adapters/src/context_scan.rs:244-247 | a read that turned out too large uses up the byte budget |
| ScanWalk.ReadListing | crates/siralos-adapters/src/context_scan.rs:359-376 | one directory into a name map, every entry charged; when the budget runs out, exactly the listing's affordable prefix |
| ScanWalk.CountProtected | crates/siralos-adapters/src/context_scan.rs:307-336 | a protected directory is counted one level deep up to 1024, overflow and exhaustion reported as truncation |
| ScanWalk.Visit | crates/siralos-adapters/src/context_scan.rs:378-408 | one name: protected, directory, file, or neither, each accounted for |
| ScanWalk.CollectAllFiles | crates/siralos-adapters/src/context_scan.rs:338-414 | whether the entry budget suffices is a fact about the tree alone; if it does, files, counts, truncation and failure are those of plain recursion over the tree, for every listing order; if not, the walk fails or reports truncation; from a flat root it collects exactly the files listed first, up to the ceiling |
| ScanReach.WalkFindsExactly | crates/siralos-adapters/src/context_scan.rs:338-414 | plain recursion finds a path exactly when the path resolves from the root to a regular file without links and no prefix of it is protected |
| Flattening.FlattenIsExact | crates/siralos-adapters/src/context_scan.rs:338-414 | a list of everything a walk can come to holds the root and exactly the paths that resolve without links and without passing a stop, each with its node |
| Flattening.FlattenIsDistinct | crates/siralos-adapters/src/context_scan.rs:338-414 | and no path twice |
| ScanCounts.WalkCounts | crates/siralos-adapters/src/context_scan.rs:307-414 | over that list, stopping at protected paths: the entries charged, the protected entries counted, when a protected directory is too large to count, when the walk must fail, and the files |
| ScanFiles.AdmitFile | crates/siralos-adapters/src/context_scan.rs:461-525 | one round of the admission loop: the outcome of one file and exactly what it charges to the shared budget |
| ScanFiles.ScanLoop | crates/siralos-adapters/src/context_scan.rs:456-533 | the admission loop, on the shared budget object, computes the specified scan |
| ScanFiles.StepStaysWithinBounds | crates/siralos-adapters/src/context_scan.rs:461-525 | one file is counted once if it is real, and its node holds what was read from it |
| ScanFiles.FateOfAFile | crates/siralos-adapters/src/context_scan.rs:461-525 | what becomes of one file, if and only if: the scan fails, or it is a node, oversized, not scanned or nothing, with what it charges; a file that grew is not scanned if the total was what was left to it and oversized if its own bound was |
| ScanFiles.ScanStaysWithinBounds | crates/siralos-adapters/src/context_scan.rs:456-533 | in every run, with files changing between lstat and read: at most max_nodes nodes, at most the byte bound in total, each real file in exactly one of nodes, oversized and not scanned, each node bound to bytes read from its own path |
| ScanFiles.UntruncatedScanIsComplete | crates/siralos-adapters/src/context_scan.rs:456-533 | at rest, a scan that does not say truncated holds every file within the size bound and nothing else |
| ScanFiles.FirstFittingFilesAreAdmitted | crates/siralos-adapters/src/context_scan.rs:456-533 | when max_nodes times max_file_bytes is at most 64 MiB, the nodes are exactly the first max_nodes files within the size bound, in path order, and truncated says exactly whether more were left |
| Workspace.ScanWorkspace | crates/siralos-adapters/src/context_scan.rs:432-534 | the whole scan: independent of every directory's listing order while the entry budget suffices; and when not truncated, complete |
| Workspace.CompleteScanIsExact | crates/siralos-adapters/src/context_scan.rs:432-534 | without any loop: a node is reported exactly for each file that resolves without links or protected entries and fits, with its digest and length, in strictly ascending path order |
| Workspace.StillScanReports | crates/siralos-adapters/src/context_scan.rs:432-534 | at rest and below both ceilings: when the scan fails, its nodes, its three counts and exactly when it reports truncation |
| Workspace.ScanFeedsTheSecondPass | crates/siralos-adapters/src/context_scan.rs:658-744 | every scan, of files at rest or not, yields nodes whose total fits the second pass's budget |
| Workspace.Reread | crates/siralos-adapters/src/context_scan.rs:674-739 | one node of the second pass: its identity and summary from bytes with the scanned digest, or an error with its cause |
| Workspace.BuildContext | crates/siralos-adapters/src/context_scan.rs:664-744 | whatever happened between the passes, success means one identity and one summary per scanned node, each summary rendered from bytes with exactly the scanned digest; each error has its cause at some node; the byte budget never fails while sizes are unchanged, and nothing fails while the bytes are |
| Workspace.BuildWorkspaceContext | crates/siralos-adapters/src/context_scan.rs:658-744 | scan and second pass composed, with the same guarantee against any change in between |
| Summaries.PrefixBytesMonotone | crates/siralos-core/src/language/truncate.rs:18-33 | a longer UTF-16 prefix never has fewer bytes, even across a split surrogate pair |
| Summaries.PrefixLossyBytes | crates/siralos-core/src/language/truncate.rs:18-54 | the byte count of a prefix is the byte length of the prefix text |
| Summaries.PrefixIsKept | crates/siralos-core/src/language/truncate.rs:38-54 | the prefix of so many UTF-16 units is the beginning of the text with exactly that many, its characters in order, half an astral character standing as one replacement character |
| Summaries.CutIsBounded | crates/siralos-adapters/src/context_scan.rs:601-625 | a body that does not fit is cut strictly shorter, and the summary is within the byte bound |
| Summaries.SummaryIsDetermined | crates/siralos-adapters/src/context_scan.rs:598-625 | identical bodies have identical summaries, within the byte bound; one that is cut keeps strictly fewer characters |
| Summaries.RenderSummary | crates/siralos-adapters/src/context_scan.rs:601-625 | the summary is the body and the footer if they fit in 4096 bytes, or else the longest beginning of the body by UTF-16 units, at most one replacement character, the marker and the footer |
| Summaries.OwnTrimIsRoomy | crates/siralos-adapters/src/context_scan.rs:606-608 | the marker and footer in use leave room for a body |
| Manifest.HashFileBounded | crates/siralos-adapters/src/reference.rs:363-392 | short reads are not the end: the hash is of all the bytes, and a file is refused exactly when it exceeds the bound |
| Manifest.ListSorted | crates/siralos-adapters/src/reference.rs:268-287 | one directory, in name order for every listing order, or failure |
| Manifest.Enter | crates/siralos-adapters/src/reference.rs:288-356 | one name: links skipped, special files fail, files hashed and charged, directories pushed |
| Manifest.OpenOne | crates/siralos-adapters/src/reference.rs:240-357 | opening one directory of the stack leaves found and still-to-find together unchanged |
| Manifest.BuildManifest | crates/siralos-adapters/src/reference.rs:233-360 | the stack-driven walk succeeds if and only if the recursive flatten is within all the limits, for every enumeration order, and then lists exactly its files, sorted |
| ManifestCounts.WithinIff | crates/siralos-adapters/src/reference.rs:240-357 | that is: nothing that resolves is a special file, a file over its bound or a directory that is unreadable, undecodable or deeper than 64, and the numbers of directories, entries and files and the bytes of all files, each path counted once, are within their limits |
| ManifestCounts.CountedIffResolves | crates/siralos-adapters/src/reference.rs:240-357 | where what is counted is exactly the root and the paths that resolve below it without links |
| ManifestCounts.SegmentsOfJoin | crates/siralos-adapters/src/reference.rs:250-256 | depth: the root and its own directories count one segment, each level below one more |
| Manifest.CensusIsExact | crates/siralos-adapters/src/reference.rs:226-232 | the flatten holds exactly the files that resolve from the root without links, with the hash of their bytes |
| Manifest.ManifestAscends | crates/siralos-adapters/src/reference.rs:358-359 | manifest paths are strictly ascending: no path twice |
| Manifest.FingerprintsAgreeIff | crates/siralos-adapters/src/reference.rs:457-462 | two trees get equal fingerprints if and only if every path names the same bytes in both |
| Manifest.ResolveFingerprint | crates/siralos-adapters/src/reference.rs:445-462 | a fingerprint is given exactly for a directory whose flatten is within the limits |
| Tokens.TokenBindsOneRevision | crates/siralos-adapters/src/profile_config.rs:161-204 | a minted token matches exactly one content at exactly one identity, or absence that is still absence; an absent observation never matches an empty file |
| Tokens.SnapshotMintsIff | crates/siralos-adapters/src/profile_config.rs:377-520 | a profile token is minted exactly when the path is absent, or the same regular file before and after a complete read, and matches those bytes |
| Tokens.ObservationMintsIff | crates/siralos-adapters/src/observed_write.rs:141-207 | a file token is minted exactly when the path is absent, or a regular file within the bound read with the length it was seen to have, and matches those bytes |
| Tokens.Gate.Consume | crates/siralos-adapters/src/profile_config.rs:205-217 | one atomic step: succeeds exactly when nothing consumed before |
| Tokens.ConsumeInOrder | crates/siralos-adapters/src/observed_write.rs:127-133 | over any interleaving of tokens and clones, exactly one attempt per unused observation succeeds, the first one, and none on a used one |
| Lock.CreateIsIdempotent | crates/siralos-core/src/composition/lock.rs:97-162 | creating a lock from a created lock changes nothing |
| Lock.LockableIff | crates/siralos-core/src/composition/lock.rs:97-162 | identities can be locked exactly when the profile digest is 64 lower-case hex digits, at most sixteen modules have different ids, and each has a bounded id without control characters, a bounded relative path and such a digest |
| Lock.LoadModules | crates/siralos-adapters/src/lockfile.rs:181-226 | the loop fills the module list or stops at the first bad entry |
| Lock.DocumentRoundTrip | crates/siralos-adapters/src/lockfile.rs:291-325 | a canonical lock loads back from its document as itself |
| Lock.WriteThenLoad | crates/siralos-adapters/src/lockfile.rs:260-379 | every lock that write accepts loads back as the recomputed canonical lock and verifies Current against itself |
| Lock.WriteAnswers | crates/siralos-adapters/src/lockfile.rs:260-290 | each refusal of write, and acceptance, if and only if |
| Lock.LoadThenWrite | crates/siralos-adapters/src/lockfile.rs:106-247 | any lock that loads is accepted by write and loads again unchanged |
| Lock.KeptDigestMeansSameIdentities | crates/siralos-adapters/src/lockfile.rs:227-246 | two documents with the same stored digest that load at all load as the same lock: changing identities under a kept digest is refused |
| Lock.KeptDigestIsRefused | crates/siralos-adapters/src/lockfile.rs:234-241 | a document that lists other identities than those its digest was made from is refused with a mismatch |
| Lock.SpelledLoads | crates/siralos-adapters/src/lockfile.rs:106-247 | what loading a document of these fields answers, in full, refusals included |
| Lock.LoadedIsSpelled | crates/siralos-adapters/src/lockfile.rs:106-247 | conversely every document that loads has exactly these fields: nothing else is accepted |
| Lock.VerifyWritten | crates/siralos-adapters/src/lockfile.rs:362-379 | a written lock is Current against another exactly when both hold the same profile and the same modules in any order, and otherwise Stale with the current digest expected and the stored one actual |
| Lock.VerifyWithoutLock | crates/siralos-adapters/src/lockfile.rs:362-379 | Missing exactly without a document; a document that does not load gives its load error |
| Origin.AcceptedIsASpelling | crates/siralos-adapters/src/config.rs:1197-1264 | an accepted origin is, between white space, one of the spellings of a valid owner and repo within the length bound, and normalizes to their printed form |
| Origin.EarlyRefusals | crates/siralos-adapters/src/config.rs:1197-1237 | each refusal made before the owner is looked at, if and only if, for every input |
| Origin.LateRefusals | crates/siralos-adapters/src/config.rs:1239-1262 | each refusal of what follows the host, if and only if |
| Origin.TrimIs | crates/siralos-adapters/src/config.rs:1198-1201 | trimming takes away white space at both ends and nothing else |
| Origin.NamesAre | crates/siralos-adapters/src/config.rs:1249-1262 | the characters of owners and repositories |
| Origin.SpellingsAgree | crates/siralos-adapters/src/config.rs:1228-1246 | the https prefix, one .git suffix and any trailing slashes all normalize alike within the length bound; with the row above, exactly what is accepted |
| Origin.FixedPointIff | crates/siralos-adapters/src/config.rs:1197-1264 | a normalized origin normalizes to itself if and only if its repo does not end in .git and it is at most 2048 bytes |
| Origin.GitIsLost | crates/siralos-adapters/src/config.rs:1239-1262 | a repo that itself ends in .git loses exactly that ending: the result is the printed form of what is left, or the repo error when that is no repo name |

## Left out

- Cost.TopKPoint: sums are unbounded, so it does not model the panic or wrap-around of a plain `usize` addition that overflows.
- Lock.WriteThenLoad: speaks of parsed documents; it does not model TOML text, its 64-bit integers or the byte bound on the lock file.
- Report rows, reason texts, level census, exclusivity and availability checks and the informational paraphrase scenario: finite data or text around the proved numbers.
- Gold scenarios, the texts of the answer map and pinned figures: finite data, not general claims.
- TOML and JSON text, SHA-256 itself, error wording, redacted debug output.
- Permission modes, the non-Unix identity of length and modification time, and the contents of staged nonces.
- Node kinds and the graph taxonomy; only the size and uniqueness conditions of the graph builder matter to the context build.
- Errors of single directory entries during enumeration, which the scan reports and the manifest skips: trees are at rest in the order results.
- Repository backends, materialization and reference dispatch: branching that a reading settles.
- Profile parsing and all of the configuration but origins: field-by-field validation.
- Context sessions, harness drivers, providers and path helpers.
