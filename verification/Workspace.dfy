/** The scan of a workspace at rest, and the context built from it by a second,
    verifying pass over whatever the file system has become. */
module Workspace {
  import opened Common
  import opened Ordering
  import opened Trees
  import opened ScanWalk
  import opened ScanReach
  import opened ScanFiles
  import opened Summaries

  // ---- the whole scan ----

  datatype Report = Report(scan: Scan, protectedSkipped: nat)

  function SightAt(root: Node, path: string): Sight {
    match FileAt(root, path)
    case None => Sight(false, Missing, Unreadable)
    case Some(bytes) => StillSight(bytes)
  }

  function SightsOf(root: Node, files: seq<string>): seq<Sight> {
    seq(|files|, i requires 0 <= i < |files| => SightAt(root, files[i]))
  }

  lemma {:induction false} FoundIsUnprotected(protect: Protection, rel: string, d: Node, x: string)
    requires d.Dir? && x in DirTally(protect, rel, d).paths
    ensures !protect(x)
    decreases d
  {
    EntriesPaths(protect, rel, d.entries);
    assert x in EntriesTally(protect, rel, d.entries).paths;
    var e :| e in d.entries && x in EntryTally(protect, Join(rel, e.name), e.node).paths;
    if e.node.Dir? {
      assert e.node < d;
      FoundIsUnprotected(protect, Join(rel, e.name), e.node, x);
    }
  }

  lemma FoundFilesAreStill(protect: Protection, root: Node)
    requires root.Dir? && Trees.Valid(root)
    ensures var files := InOrder(DirTally(protect, "", root).paths); Still(protect, files, SightsOf(root, files))
  {
    hide DirTally, Unprotected;
    var paths := DirTally(protect, "", root).paths;
    var files := InOrder(paths);
    forall i | 0 <= i < |files| ensures !protect(files[i]) && FileAt(root, files[i]).Some? {
      assert files[i] in Elements(files);
      FoundIsUnprotected(protect, "", root, files[i]);
      WalkFindsExactly(protect, root, files[i]);
    }
  }

  /** What the scan of a tree at rest reports, if its entry budget suffices. */
  ghost function StillScan(bounds: Bounds, protect: Protection, root: Node): Option<Report>
    requires root.Dir?
  {
    var t := DirTally(protect, "", root);
    var files := InOrder(t.paths);
    if t.bad then None
    else match ScanAll(bounds, protect, t.overflow || |files| > bounds.maxNodes, files, SightsOf(root, files))
         case None => None
         case Some(scan) => Some(Report(scan, t.protected))
  }

  /** `scan_workspace`. If the entry budget suffices for the tree, the result does not
      depend on the order in which any directory is listed. In any case, a result that
      does not claim truncation holds, in strictly ascending path order, exactly the
      files that resolve without links or protected entries and fit the size bound. */
  method ScanWorkspace(root: Node, e: Enumeration, protect: Protection, bounds: Bounds) returns (r: Option<Report>)
    requires Trees.Valid(root) && Enumerates(e)
    ensures !root.Dir? ==> r.None?
    ensures root.Dir? && DirTally(protect, "", root).visited <= EntryLimit(bounds) ==> r == StillScan(bounds, protect, root)
    ensures r.Some? && !r.value.scan.truncated ==>
              && root.Dir?
              && var files := InOrder(DirTally(protect, "", root).paths);
                 r.value.scan.nodes == Fitting(bounds, files, SightsOf(root, files))
    ensures r.Some? ==> |r.value.scan.nodes| <= bounds.maxNodes && Scanned(bounds, r.value.scan.nodes)
  {
    if !root.Dir? {
      return None;
    }
    hide DirTally;
    var budget := new ScanBudget(bounds);
    var collected := CollectAllFiles(root, e, protect, budget);
    if collected.None? {
      return None;
    }
    var files := collected.value.files;
    var sights := SightsOf(root, files);
    ghost var start := budget.truncated || |files| > bounds.maxNodes;
    var scan := ScanLoop(bounds, protect, budget, files, sights);
    if scan.None? {
      return None;
    }
    r := Some(Report(scan.value, collected.value.protected));
    ScanStaysWithinBounds(bounds, protect, start, files, sights);
    ScanFeedsTheSecondPass(bounds, protect, start, files, sights);
    if !r.value.scan.truncated {
      FoundFilesAreStill(protect, root);
      UntruncatedScanIsComplete(bounds, protect, start, files, sights);
    }
  }

  /** What the scan of a tree at rest reports, if neither the entry ceiling nor the 64 MiB
      stands in the way: it fails exactly if the walk must; its nodes are the first
      `max_nodes` files within the size bound, and what is left is counted; and truncation
      is reported exactly if a protected directory overflowed or there are more files than
      nodes allowed. */
  lemma StillScanReports(bounds: Bounds, protect: Protection, root: Node)
    requires root.Dir? && Trees.Valid(root) && bounds.maxNodes * bounds.maxFileBytes <= MAX_SCAN_BYTES
    ensures var t, r := DirTally(protect, "", root), StillScan(bounds, protect, root);
            && (r.None? <==> t.bad)
            && (r.Some? ==>
                  var files := InOrder(t.paths);
                  var fitting := Fitting(bounds, files, SightsOf(root, files));
                  && r.value.protectedSkipped == t.protected
                  && r.value.scan.nodes == fitting[..Min(bounds.maxNodes, |fitting|)]
                  && r.value.scan.oversized == |files| - |fitting|
                  && r.value.scan.notScanned == |fitting| - |r.value.scan.nodes|
                  && (r.value.scan.truncated <==> t.overflow || |files| > bounds.maxNodes))
  {
    hide DirTally, ScanAll, InOrder;
    var t := DirTally(protect, "", root);
    var files := InOrder(t.paths);
    FoundFilesAreStill(protect, root);
    FittingAreFiles(bounds, files, SightsOf(root, files));
    FirstFittingFilesAreAdmitted(bounds, protect, t.overflow || |files| > bounds.maxNodes, files, SightsOf(root, files));
  }

  lemma {:induction false} FittingAreFiles(bounds: Bounds, files: seq<string>, sights: seq<Sight>)
    requires |files| == |sights|
    ensures |Fitting(bounds, files, sights)| <= |files|
  {
    if files != [] {
      FittingAreFiles(bounds, files[..|files| - 1], sights[..|files| - 1]);
    }
  }

  function NodeFor(path: string, bytes: Bytes): ScanNode {
    ScanNode(path, Sha256(bytes), |bytes|)
  }

  ghost predicate FitsAt(bounds: Bounds, files: seq<string>, sights: seq<Sight>, i: int, node: ScanNode)
    requires |files| == |sights|
  {
    && 0 <= i < |files|
    && sights[i].content.Readable?
    && node == NodeFor(files[i], sights[i].content.bytes)
    && node.byteLen <= bounds.maxFileBytes
  }

  /** The nodes of a complete scan are exactly the files within the bound, each with
      the digest and length of its bytes. */
  lemma {:induction false} FittingMember(bounds: Bounds, files: seq<string>, sights: seq<Sight>, node: ScanNode)
    requires |files| == |sights|
    ensures node in Fitting(bounds, files, sights) <==> exists i :: FitsAt(bounds, files, sights, i, node)
  {
    if files != [] {
      var n := |files| - 1;
      FittingMember(bounds, files[..n], sights[..n], node);
      if i :| FitsAt(bounds, files, sights, i, node) {
        assert i < n ==> FitsAt(bounds, files[..n], sights[..n], i, node);
      }
      if i :| FitsAt(bounds, files[..n], sights[..n], i, node) {
        assert FitsAt(bounds, files, sights, i, node);
      }
      assert node == NodeFor(files[n], if sights[n].content.Readable? then sights[n].content.bytes else []) ==>
               (FitsAt(bounds, files, sights, n, node) <==>
                sights[n].content.Readable? && |sights[n].content.bytes| <= bounds.maxFileBytes);
    }
  }

  lemma {:induction false} FittingAscends(bounds: Bounds, files: seq<string>, sights: seq<Sight>)
    requires |files| == |sights| && Ascending(files)
    ensures var nodes := Fitting(bounds, files, sights);
            forall i, j :: 0 <= i < j < |nodes| ==> StrLt(nodes[i].path, nodes[j].path)
  {
    if files != [] {
      var n := |files| - 1;
      FittingAscends(bounds, files[..n], sights[..n]);
      var rest := Fitting(bounds, files[..n], sights[..n]);
      forall i | 0 <= i < |rest| ensures StrLt(rest[i].path, files[n]) {
        FittingMember(bounds, files[..n], sights[..n], rest[i]);
        var k :| FitsAt(bounds, files[..n], sights[..n], k, rest[i]);
        assert StrLt(files[k], files[n]);
      }
    }
  }

  /** A complete scan, said without any loop: a node is reported exactly for each file
      that resolves from the root without links or protected entries and is within the
      size bound, with the digest and length of its bytes, in ascending path order. */
  lemma CompleteScanIsExact(bounds: Bounds, protect: Protection, root: Node, node: ScanNode)
    requires root.Dir? && Trees.Valid(root)
    ensures var files := InOrder(DirTally(protect, "", root).paths);
            var nodes := Fitting(bounds, files, SightsOf(root, files));
            && (node in nodes <==>
                  && Wanted(protect, "", root, node.path)
                  && node == NodeFor(node.path, FileAt(root, node.path).value)
                  && node.byteLen <= bounds.maxFileBytes)
            && (forall i, j :: 0 <= i < j < |nodes| ==> StrLt(nodes[i].path, nodes[j].path))
  {
    hide DirTally;
    var paths := DirTally(protect, "", root).paths;
    var files := InOrder(paths);
    var sights := SightsOf(root, files);
    FittingAscends(bounds, files, sights);
    FittingMember(bounds, files, sights, node);
    WalkFindsExactly(protect, root, node.path);
    assert node.path in files <==> node.path in Elements(files);
    if i :| FitsAt(bounds, files, sights, i, node) {
      assert files[i] in Elements(files);
    }
    if Wanted(protect, "", root, node.path) && node == NodeFor(node.path, FileAt(root, node.path).value)
       && node.byteLen <= bounds.maxFileBytes {
      var i :| 0 <= i < |files| && files[i] == node.path;
      assert FitsAt(bounds, files, sights, i, node);
    }
  }

  // ---- the second pass ----

  const MAX_GRAPH_NODES: nat := 512
  const MAX_ID_BYTES: nat := 256

  datatype BuildError = ScanFailed | GraphUnavailable | ContextChanged | ByteBudget | RereadFailed

  /** The two representations stored for a node. */
  datatype Built = Built(path: string, identity: Digest, summary: string)

  /** The conditions the graph and store builders put on the scanned nodes. */
  ghost predicate Bindable(nodes: seq<ScanNode>) {
    && |nodes| <= 512
    && (forall i :: 0 <= i < |nodes| ==> Utf8Len(nodes[i].path) <= 256)
    && (forall i, j :: 0 <= i < j < |nodes| ==> nodes[i].path != nodes[j].path)
  }

  method CheckBindable(nodes: seq<ScanNode>) returns (ok: bool)
    ensures ok <==> Bindable(nodes)
  {
    if |nodes| > MAX_GRAPH_NODES {
      return false;
    }
    var seen: set<string> := {};
    for i := 0 to |nodes|
      invariant forall k :: 0 <= k < i ==> Utf8Len(nodes[k].path) <= MAX_ID_BYTES
      invariant forall k, j :: 0 <= k < j < i ==> nodes[k].path != nodes[j].path
      invariant forall x :: x in seen <==> exists k :: 0 <= k < i && nodes[k].path == x
    {
      if Utf8Len(nodes[i].path) > MAX_ID_BYTES || nodes[i].path in seen {
        return false;
      }
      seen := seen + {nodes[i].path};
    }
    return true;
  }

  /** What a node was scanned from. */
  ghost predicate Scanned(bounds: Bounds, nodes: seq<ScanNode>) {
    && SumBytes(nodes) <= ByteLimit(bounds)
    && forall i :: 0 <= i < |nodes| ==>
         nodes[i].digest.Sha256? && nodes[i].byteLen == |nodes[i].digest.preimage| <= bounds.maxFileBytes
  }

  /** Every scan, of files at rest or changing, yields nodes the second pass accepts. */
  lemma ScanFeedsTheSecondPass(bounds: Bounds, protect: Protection, start: bool, files: seq<string>, sights: seq<Sight>)
    requires |files| == |sights| && ScanAll(bounds, protect, start, files, sights).Some?
    ensures Scanned(bounds, ScanAll(bounds, protect, start, files, sights).value.nodes)
  {
    ScanStaysWithinBounds(bounds, protect, start, files, sights);
    hide ScanAll;
    var nodes := ScanAll(bounds, protect, start, files, sights).value.nodes;
    forall i | 0 <= i < |nodes|
      ensures nodes[i].digest.Sha256? && nodes[i].byteLen == |nodes[i].digest.preimage| <= bounds.maxFileBytes
    {
      assert nodes[i] in nodes;
      assert Faithful(bounds, protect, files, sights, nodes[i]);
    }
  }

  lemma {:induction false} SumOfPrefix(nodes: seq<ScanNode>, i: nat)
    requires i < |nodes|
    ensures SumBytes(nodes[..i]) + nodes[i].byteLen == SumBytes(nodes[..i + 1]) <= SumBytes(nodes)
  {
    assert nodes[..i + 1][..i] == nodes[..i];
    if i + 1 == |nodes| {
      assert nodes[..i + 1] == nodes;
    } else {
      var front := nodes[..|nodes| - 1];
      assert front[..i] == nodes[..i] && front[..i + 1] == nodes[..i + 1];
      SumOfPrefix(front, i);
    }
  }

  /** Why the second pass stops at node `i` with this error: the file is not what it was,
      no longer within what is left of the byte budget, or cannot be read. */
  ghost predicate Halts(bounds: Bounds, nodes: seq<ScanNode>, sights: seq<Sight>, i: nat, e: BuildError)
    requires |nodes| == |sights|
  {
    && i < |nodes|
    && var seen, left := sights[i], Min(SatSub(ByteLimit(bounds), SumBytes(nodes[..i])), bounds.maxFileBytes);
       var same := !seen.stop && seen.meta.RealFile? && seen.meta.size <= bounds.maxFileBytes;
       match e
       case ContextChanged =>
         || !same
         || (&& seen.meta.size <= left && seen.content.Readable?
             && (|seen.content.bytes| > left || Sha256(seen.content.bytes) != nodes[i].digest))
       case ByteBudget => same && seen.meta.size > left
       case RereadFailed => same && seen.meta.size <= left && seen.content.Unreadable?
       case _ => false
  }

  /** One node of the second pass, on the shared budget. */
  method Reread(bounds: Bounds, trim: Trim, decode: Bytes -> string, nodes: seq<ScanNode>, sights: seq<Sight>, i: nat,
                budget: ScanBudget)
    returns (r: Result<Built, BuildError>)
    requires |nodes| == |sights| && i < |nodes| && Scanned(bounds, nodes) && Roomy(trim)
    requires budget.Valid() && budget.maxFileBytes == bounds.maxFileBytes && budget.maxBytes == ByteLimit(bounds)
    requires budget.bytesRead == SumBytes(nodes[..i])
    modifies budget`bytesRead, budget`truncated
    ensures budget.Valid()
    ensures r.Ok? ==>
              && budget.bytesRead == SumBytes(nodes[..i + 1])
              && r.value.path == nodes[i].path && r.value.identity == nodes[i].digest
              && IsSummary(trim, decode(nodes[i].digest.preimage), r.value.summary)
    ensures r.Err? ==> r.error != GraphUnavailable && Halts(bounds, nodes, sights, i, r.error)
    ensures sights[i].meta == RealFile(nodes[i].byteLen) ==> r != Err(ByteBudget)
    ensures sights[i] == StillSight(nodes[i].digest.preimage) ==> r.Ok?
  {
    hide IsSummary, SumBytes, ByteLimit, Roomy;
    SumOfPrefix(nodes, i);
    var seen := sights[i];
    if seen.stop || !seen.meta.RealFile? || seen.meta.size > bounds.maxFileBytes {
      return Err(ContextChanged);
    }
    var limit := budget.ReadLimit();
    if limit < seen.meta.size {
      return Err(ByteBudget);
    }
    match seen.content
    case Unreadable =>
      return Err(RereadFailed);
    case Readable(bytes) =>
      if |bytes| > limit {
        budget.ChargeFailedRead();
        return Err(ContextChanged);
      }
      budget.ChargeRead(|bytes|);
      if Sha256(bytes) != nodes[i].digest {
        return Err(ContextChanged);
      }
      var summary := RenderSummary(trim, decode(bytes));
      r := Ok(Built(nodes[i].path, nodes[i].digest, summary));
  }

  /** `build_workspace_context`, after the scan. Whatever the file system did between
      the passes, success means one identity and one summary per scanned node, the
      summary rendered from bytes with exactly the scanned digest; an error has its cause
      at some node; and the byte budget is never what fails while file sizes are unchanged. */
  method BuildContext(bounds: Bounds, trim: Trim, decode: Bytes -> string, nodes: seq<ScanNode>, sights: seq<Sight>)
    returns (r: Result<seq<Built>, BuildError>)
    requires |nodes| == |sights| && Scanned(bounds, nodes) && Roomy(trim)
    ensures r.Ok? ==>
              && |r.value| == |nodes|
              && forall i :: 0 <= i < |nodes| ==>
                   && r.value[i].path == nodes[i].path && r.value[i].identity == nodes[i].digest
                   && IsSummary(trim, decode(nodes[i].digest.preimage), r.value[i].summary)
    ensures r == Err(GraphUnavailable) <==> !Bindable(nodes)
    ensures r.Err? && Bindable(nodes) ==> exists i :: Halts(bounds, nodes, sights, i, r.error)
    ensures (forall i :: 0 <= i < |nodes| ==> sights[i].meta == RealFile(nodes[i].byteLen)) ==> r != Err(ByteBudget)
    ensures (forall i :: 0 <= i < |nodes| ==> sights[i] == StillSight(nodes[i].digest.preimage)) && Bindable(nodes) ==> r.Ok?
  {
    hide IsSummary, Bindable, Halts, SumBytes, ByteLimit, EntryLimit, Roomy;
    var bindable := CheckBindable(nodes);
    if !bindable {
      return Err(GraphUnavailable);
    }
    var budget := new ScanBudget(bounds);
    NoBytes(nodes);
    var sets: seq<Built> := [];
    for i := 0 to |nodes|
      invariant budget.Valid() && |sets| == i && budget.bytesRead == SumBytes(nodes[..i])
      invariant forall k :: 0 <= k < i ==>
                  && sets[k].path == nodes[k].path && sets[k].identity == nodes[k].digest
                  && IsSummary(trim, decode(nodes[k].digest.preimage), sets[k].summary)
    {
      var built := Reread(bounds, trim, decode, nodes, sights, i, budget);
      if built.Err? {
        return Err(built.error);
      }
      sets := sets + [built.value];
    }
    return Ok(sets);
  }

  lemma NoBytes(nodes: seq<ScanNode>)
    ensures SumBytes(nodes[..0]) == 0
  {}

  function Sights(nodes: seq<ScanNode>, later: ScanNode -> Sight): seq<Sight> {
    seq(|nodes|, i requires 0 <= i < |nodes| => later(nodes[i]))
  }

  /** The second pass meets the bytes the scan read. */
  ghost predicate Unchanged(nodes: seq<ScanNode>, later: ScanNode -> Sight) {
    forall node :: node in nodes && node.digest.Sha256? ==> later(node) == StillSight(node.digest.preimage)
  }

  /** The scan and the second pass together; `later` is what the second pass meets. What
      is built stands for exactly the scanned nodes, whatever happened in between; and
      if nothing changed and the graph can hold them, it is built. */
  method BuildWorkspaceContext(root: Node, e: Enumeration, protect: Protection, bounds: Bounds, trim: Trim,
                               decode: Bytes -> string, later: ScanNode -> Sight)
    returns (scanned: Option<Report>, r: Result<seq<Built>, BuildError>)
    requires Trees.Valid(root) && Enumerates(e) && Roomy(trim)
    ensures scanned.None? ==> r == Err(ScanFailed)
    ensures r.Ok? ==>
              && scanned.Some? && |r.value| == |scanned.value.scan.nodes|
              && forall i :: 0 <= i < |r.value| ==>
                   var node, built := scanned.value.scan.nodes[i], r.value[i];
                   && built.path == node.path && built.identity == node.digest && node.digest.Sha256?
                   && IsSummary(trim, decode(node.digest.preimage), built.summary)
    ensures scanned.Some? && Bindable(scanned.value.scan.nodes) && Unchanged(scanned.value.scan.nodes, later) ==> r.Ok?
  {
    scanned := ScanWorkspace(root, e, protect, bounds);
    if scanned.None? {
      return None, Err(ScanFailed);
    }
    var nodes := scanned.value.scan.nodes;
    r := BuildContext(bounds, trim, decode, nodes, Sights(nodes, later));
  }
}
