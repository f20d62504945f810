/** The greedy admission loop of the scan, and the scan as a whole. */
module ScanFiles {
  import opened Common
  import opened ScanWalk

  datatype ScanNode = ScanNode(path: string, digest: Digest, byteLen: nat)

  datatype Meta = Missing | NotARealFile | RealFile(size: nat)

  datatype Content = Readable(bytes: Bytes) | Unreadable

  /** What the loop meets at one file: a cancellation or a vanished root, then `lstat`,
      then whatever the file holds by the time it is read. */
  datatype Sight = Sight(stop: bool, meta: Meta, content: Content)

  datatype Scan = Scan(nodes: seq<ScanNode>, oversized: nat, notScanned: nat, truncated: bool, bytesRead: nat)

  function Limit(bounds: Bounds, bytesRead: nat): nat {
    Min(SatSub(ByteLimit(bounds), bytesRead), bounds.maxFileBytes)
  }

  /** One file; `None` when the scan fails. */
  function ScanOne(bounds: Bounds, protect: Protection, s: Scan, path: string, seen: Sight): Option<Scan> {
    if seen.stop then None
    else if protect(path) then Some(s)
    else match seen.meta
    case Missing => None
    case NotARealFile => Some(s)
    case RealFile(size) =>
      var limit := Limit(bounds, s.bytesRead);
      if size > bounds.maxFileBytes then Some(s.(oversized := s.oversized + 1))
      else if |s.nodes| >= bounds.maxNodes || limit < size then
        Some(s.(notScanned := s.notScanned + 1, truncated := true))
      else match seen.content
      case Unreadable => None
      case Readable(bytes) =>
        if |bytes| <= limit then
          Some(s.(nodes := s.nodes + [ScanNode(path, Sha256(bytes), |bytes|)],
                  bytesRead := Min(s.bytesRead + |bytes|, ByteLimit(bounds))))
        else
          var failed := s.(bytesRead := ByteLimit(bounds), truncated := true);
          if limit < bounds.maxFileBytes then Some(failed.(notScanned := s.notScanned + 1))
          else Some(failed.(oversized := s.oversized + 1))
  }

  function ScanAll(bounds: Bounds, protect: Protection, start: bool, files: seq<string>, sights: seq<Sight>): Option<Scan>
    requires |files| == |sights|
  {
    if files == [] then Some(Scan([], 0, 0, start, 0))
    else
      var n := |files| - 1;
      match ScanAll(bounds, protect, start, files[..n], sights[..n])
      case None => None
      case Some(s) => ScanOne(bounds, protect, s, files[n], sights[n])
  }

  /** One round of the loop, on the shared budget. */
  method AdmitFile(bounds: Bounds, protect: Protection, budget: ScanBudget, path: string, seen: Sight, s: Scan)
    returns (r: Option<Scan>)
    requires budget.Valid() && budget.maxFileBytes == bounds.maxFileBytes && budget.maxBytes == ByteLimit(bounds)
    requires s.bytesRead == budget.bytesRead && (budget.truncated ==> s.truncated)
    modifies budget`bytesRead, budget`truncated
    ensures budget.Valid() && r == ScanOne(bounds, protect, s, path, seen)
    ensures r.Some? ==> budget.bytesRead == r.value.bytesRead && (budget.truncated ==> r.value.truncated)
  {
    hide ByteLimit;
    if seen.stop {
      return None;
    }
    if protect(path) || seen.meta.NotARealFile? {
      return Some(s);
    }
    if seen.meta.Missing? {
      return None;
    }
    if seen.meta.size > bounds.maxFileBytes {
      return Some(s.(oversized := s.oversized + 1));
    }
    var limit := budget.ReadLimit();
    if |s.nodes| >= bounds.maxNodes || limit < seen.meta.size {
      return Some(s.(notScanned := s.notScanned + 1, truncated := true));
    }
    match seen.content
    case Unreadable =>
      return None;
    case Readable(bytes) =>
      if |bytes| <= limit {
        budget.ChargeRead(|bytes|);
        r := Some(s.(nodes := s.nodes + [ScanNode(path, Sha256(bytes), |bytes|)], bytesRead := budget.bytesRead));
      } else {
        budget.ChargeFailedRead();
        var failed := s.(bytesRead := budget.bytesRead, truncated := true);
        r := Some(if limit < bounds.maxFileBytes then failed.(notScanned := s.notScanned + 1)
                  else failed.(oversized := s.oversized + 1));
      }
  }

  /** The loop of `scan_workspace_with_control` over the collected files. */
  method ScanLoop(bounds: Bounds, protect: Protection, budget: ScanBudget, files: seq<string>, sights: seq<Sight>)
    returns (r: Option<Scan>)
    requires |files| == |sights| && budget.Valid() && budget.bytesRead == 0
    requires budget.maxFileBytes == bounds.maxFileBytes && budget.maxBytes == ByteLimit(bounds)
    modifies budget`bytesRead, budget`truncated
    ensures r == ScanAll(bounds, protect, old(budget.truncated) || |files| > bounds.maxNodes, files, sights)
  {
    hide ScanOne, ByteLimit;
    ghost var start := budget.truncated || |files| > bounds.maxNodes;
    var scan := Scan([], 0, 0, budget.truncated || |files| > bounds.maxNodes, 0);
    for i := 0 to |files|
      invariant budget.Valid() && scan.bytesRead == budget.bytesRead && (budget.truncated ==> scan.truncated)
      invariant ScanAll(bounds, protect, start, files[..i], sights[..i]) == Some(scan)
    {
      assert files[..i + 1][..i] == files[..i] && sights[..i + 1][..i] == sights[..i];
      assert ScanAll(bounds, protect, start, files[..i + 1], sights[..i + 1])
             == ScanOne(bounds, protect, scan, files[i], sights[i]);
      Unfinished(bounds, protect, start, files, sights, i + 1);
      hide ScanAll;
      var next := AdmitFile(bounds, protect, budget, files[i], sights[i], scan);
      if next.None? {
        return None;
      }
      scan := next.value;
    }
    assert files[..|files|] == files && sights[..|sights|] == sights;
    r := Some(scan.(truncated := scan.truncated || budget.truncated));
  }

  /** A failure on a prefix is a failure of the whole. */
  lemma {:induction false} Unfinished(bounds: Bounds, protect: Protection, start: bool, files: seq<string>,
                                      sights: seq<Sight>, i: nat)
    requires |files| == |sights| && i <= |files|
    ensures ScanAll(bounds, protect, start, files[..i], sights[..i]).None? ==>
              ScanAll(bounds, protect, start, files, sights).None?
    decreases |files|
  {
    if i < |files| {
      var n := |files| - 1;
      assert files[..n][..i] == files[..i] && sights[..n][..i] == sights[..i];
      Unfinished(bounds, protect, start, files[..n], sights[..n], i);
    } else {
      assert files[..i] == files && sights[..i] == sights;
    }
  }

  // ---- bounds, whatever the files do meanwhile ----

  function SumBytes(nodes: seq<ScanNode>): nat {
    if nodes == [] then 0 else SumBytes(nodes[..|nodes| - 1]) + nodes[|nodes| - 1].byteLen
  }

  predicate Real(protect: Protection, path: string, seen: Sight) {
    !protect(path) && seen.meta.RealFile?
  }

  function RealFiles(protect: Protection, files: seq<string>, sights: seq<Sight>): seq<string>
    requires |files| == |sights|
  {
    if files == [] then []
    else
      var n := |files| - 1;
      RealFiles(protect, files[..n], sights[..n]) + if Real(protect, files[n], sights[n]) then [files[n]] else []
  }

  /** Each node was read completely, within the file bound, from its own file. */
  ghost predicate Faithful(bounds: Bounds, protect: Protection, files: seq<string>, sights: seq<Sight>, node: ScanNode)
    requires |files| == |sights|
  {
    exists i :: 0 <= i < |files| && files[i] == node.path && Real(protect, files[i], sights[i])
      && sights[i].content.Readable? && node.digest == Sha256(sights[i].content.bytes)
      && node.byteLen == |sights[i].content.bytes| <= bounds.maxFileBytes
  }

  /** In every run: at most `max_nodes` nodes, at most the byte bound in total, every
      real file counted exactly once as a node, as oversized or as not scanned, and
      every node bound to bytes actually read from its file. */
  lemma {:induction false} ScanStaysWithinBounds(bounds: Bounds, protect: Protection, start: bool,
                                                 files: seq<string>, sights: seq<Sight>)
    requires |files| == |sights| && ScanAll(bounds, protect, start, files, sights).Some?
    ensures var s := ScanAll(bounds, protect, start, files, sights).value;
            && |s.nodes| <= bounds.maxNodes
            && SumBytes(s.nodes) <= s.bytesRead <= ByteLimit(bounds)
            && |s.nodes| + s.oversized + s.notScanned == |RealFiles(protect, files, sights)|
            && (s.notScanned > 0 || start ==> s.truncated)
            && forall node :: node in s.nodes ==> Faithful(bounds, protect, files, sights, node)
  {
    if files != [] {
      var n := |files| - 1;
      ScanStaysWithinBounds(bounds, protect, start, files[..n], sights[..n]);
      var s := ScanAll(bounds, protect, start, files[..n], sights[..n]).value;
      var t := ScanAll(bounds, protect, start, files, sights).value;
      forall node | node in s.nodes ensures Faithful(bounds, protect, files, sights, node) {
        FaithfulGrows(bounds, protect, files, sights, node);
      }
      StepStaysWithinBounds(bounds, protect, s, files[n], sights[n]);
      hide ScanOne, Real;
      if t.nodes != s.nodes {
        var added := t.nodes[|s.nodes|];
        assert t.nodes == s.nodes + [added];
        assert files[n] == added.path;
        assert Faithful(bounds, protect, files, sights, added);
      }
    }
  }

  /** One file: counted once if it is real, and its node holds what was read from it. */
  lemma StepStaysWithinBounds(bounds: Bounds, protect: Protection, s: Scan, path: string, seen: Sight)
    requires |s.nodes| <= bounds.maxNodes && SumBytes(s.nodes) <= s.bytesRead <= ByteLimit(bounds)
    requires ScanOne(bounds, protect, s, path, seen).Some?
    ensures var t := ScanOne(bounds, protect, s, path, seen).value;
            && |t.nodes| <= bounds.maxNodes
            && SumBytes(t.nodes) <= t.bytesRead <= ByteLimit(bounds)
            && |t.nodes| + t.oversized + t.notScanned ==
               |s.nodes| + s.oversized + s.notScanned + (if Real(protect, path, seen) then 1 else 0)
            && (s.truncated || t.notScanned > s.notScanned ==> t.truncated)
            && t.notScanned >= s.notScanned
            && (t.nodes == s.nodes
                || (&& Real(protect, path, seen) && seen.content.Readable?
                    && |seen.content.bytes| <= bounds.maxFileBytes
                    && t.nodes == s.nodes + [ScanNode(path, Sha256(seen.content.bytes), |seen.content.bytes|)]))
  {
    hide ByteLimit, SumBytes;
    if Real(protect, path, seen) && seen.content.Readable? {
      SumAppended(s.nodes, ScanNode(path, Sha256(seen.content.bytes), |seen.content.bytes|));
    }
  }

  /** What becomes of one file, by what is met at it: when the scan fails, and otherwise
      which of the three counts it is in, or none. A file that grew after it was seen is
      not scanned if the total was what was left to it, and oversized if its own bound was. */
  lemma FateOfAFile(bounds: Bounds, protect: Protection, s: Scan, path: string, seen: Sight)
    ensures var left := Min(SatSub(ByteLimit(bounds), s.bytesRead), bounds.maxFileBytes);
            var plain := !seen.stop && Real(protect, path, seen);
            var small := plain && seen.meta.size <= bounds.maxFileBytes;
            var tried := small && |s.nodes| < bounds.maxNodes && seen.meta.size <= left;
            var grew := tried && seen.content.Readable? && |seen.content.bytes| > left;
            && (ScanOne(bounds, protect, s, path, seen).None? <==>
                  seen.stop || (!protect(path) && seen.meta.Missing?) || (tried && seen.content.Unreadable?))
            && (ScanOne(bounds, protect, s, path, seen).Some? ==>
                  var t := ScanOne(bounds, protect, s, path, seen).value;
                  && (|t.nodes| > |s.nodes| <==> tried && !grew)
                  && (t.oversized > s.oversized <==> (plain && !small) || (grew && left == bounds.maxFileBytes))
                  && (t.notScanned > s.notScanned <==> (small && !tried) || (grew && left < bounds.maxFileBytes))
                  && (t.truncated <==> s.truncated || (small && !tried) || grew)
                  && t.bytesRead == if grew then ByteLimit(bounds)
                                    else if tried then Min(s.bytesRead + |seen.content.bytes|, ByteLimit(bounds))
                                    else s.bytesRead)
  {
    hide ByteLimit;
  }

  lemma SumAppended(nodes: seq<ScanNode>, node: ScanNode)
    ensures SumBytes(nodes + [node]) == SumBytes(nodes) + node.byteLen
  {
    assert (nodes + [node])[..|nodes|] == nodes;
  }

  lemma FaithfulGrows(bounds: Bounds, protect: Protection, files: seq<string>, sights: seq<Sight>, node: ScanNode)
    requires |files| == |sights| && files != []
    requires Faithful(bounds, protect, files[..|files| - 1], sights[..|files| - 1], node)
    ensures Faithful(bounds, protect, files, sights, node)
  {
    var n := |files| - 1;
    var i :| 0 <= i < n && files[..n][i] == node.path && Real(protect, files[..n][i], sights[..n][i])
      && sights[..n][i].content.Readable? && node.digest == Sha256(sights[..n][i].content.bytes)
      && node.byteLen == |sights[..n][i].content.bytes| <= bounds.maxFileBytes;
    assert files[i] == node.path && sights[i] == sights[..n][i];
  }

  // ---- a tree at rest ----

  /** What the loop meets when nothing changes. */
  function StillSight(bytes: Bytes): Sight {
    Sight(false, RealFile(|bytes|), Readable(bytes))
  }

  ghost predicate Still(protect: Protection, files: seq<string>, sights: seq<Sight>) {
    && |files| == |sights|
    && forall i :: 0 <= i < |files| ==>
         && !protect(files[i])
         && sights[i].content.Readable?
         && sights[i] == StillSight(sights[i].content.bytes)
  }

  /** The files within the size bound, in order. */
  function Fitting(bounds: Bounds, files: seq<string>, sights: seq<Sight>): seq<ScanNode>
    requires |files| == |sights|
  {
    if files == [] then []
    else
      var n := |files| - 1;
      var rest := Fitting(bounds, files[..n], sights[..n]);
      if sights[n].content.Readable? && |sights[n].content.bytes| <= bounds.maxFileBytes
      then rest + [ScanNode(files[n], Sha256(sights[n].content.bytes), |sights[n].content.bytes|)]
      else rest
  }

  /** A scan of a tree at rest succeeds, and unless it says it was truncated it holds
      every file within the size bound and nothing else. */
  lemma {:induction false} UntruncatedScanIsComplete(bounds: Bounds, protect: Protection, start: bool,
                                                    files: seq<string>, sights: seq<Sight>)
    requires Still(protect, files, sights)
    ensures ScanAll(bounds, protect, start, files, sights).Some?
    ensures var s := ScanAll(bounds, protect, start, files, sights).value;
            !s.truncated ==>
              && s.nodes == Fitting(bounds, files, sights)
              && s.oversized == |files| - |s.nodes| && s.notScanned == 0
  {
    if files != [] {
      var n := |files| - 1;
      assert sights[n] == StillSight(sights[n].content.bytes);
      UntruncatedScanIsComplete(bounds, protect, start, files[..n], sights[..n]);
    }
  }

  lemma RoomForOneMore(nodes: nat, maxNodes: nat, maxFile: nat, used: nat)
    requires nodes < maxNodes && used <= nodes * maxFile
    ensures maxNodes * maxFile - used >= maxFile
  {
    MulMonotone(nodes + 1, maxNodes, maxFile);
    assert (nodes + 1) * maxFile == nodes * maxFile + maxFile;
  }

  /** When the byte bound is not the 64 MiB ceiling, only the node bound limits the
      scan: the nodes are the first `max_nodes` files within the size bound. */
  lemma {:induction false} FirstFittingFilesAreAdmitted(bounds: Bounds, protect: Protection, start: bool,
                                                        files: seq<string>, sights: seq<Sight>)
    requires Still(protect, files, sights)
    requires bounds.maxNodes * bounds.maxFileBytes <= MAX_SCAN_BYTES
    ensures ScanAll(bounds, protect, start, files, sights).Some?
    ensures var s, fitting := ScanAll(bounds, protect, start, files, sights).value, Fitting(bounds, files, sights);
            && s.nodes == fitting[..Min(bounds.maxNodes, |fitting|)]
            && s.notScanned == |fitting| - |s.nodes|
            && s.oversized == |files| - |fitting|
            && s.bytesRead <= |s.nodes| * bounds.maxFileBytes
            && s.truncated == (start || |fitting| > bounds.maxNodes)
  {
    if files != [] {
      var n := |files| - 1;
      FirstFittingFilesAreAdmitted(bounds, protect, start, files[..n], sights[..n]);
      var s := ScanAll(bounds, protect, start, files[..n], sights[..n]).value;
      AdmitOne(bounds, protect, s, files[n], sights[n].content.bytes);
      hide ScanOne;
      var rest := Fitting(bounds, files[..n], sights[..n]);
      assert sights[n] == StillSight(sights[n].content.bytes);
      if |s.nodes| < bounds.maxNodes {
        assert s.nodes == rest;
      }
    }
  }

  lemma AdmitOne(bounds: Bounds, protect: Protection, s: Scan, path: string, bytes: Bytes)
    requires bounds.maxNodes * bounds.maxFileBytes <= MAX_SCAN_BYTES && !protect(path)
    requires |s.nodes| <= bounds.maxNodes && s.bytesRead <= |s.nodes| * bounds.maxFileBytes
    ensures ScanOne(bounds, protect, s, path, StillSight(bytes)) ==
            if |bytes| > bounds.maxFileBytes then Some(s.(oversized := s.oversized + 1))
            else if |s.nodes| == bounds.maxNodes then Some(s.(notScanned := s.notScanned + 1, truncated := true))
            else Some(s.(nodes := s.nodes + [ScanNode(path, Sha256(bytes), |bytes|)], bytesRead := s.bytesRead + |bytes|))
    ensures |bytes| <= bounds.maxFileBytes ==>
              s.bytesRead + |bytes| <= (|s.nodes| + 1) * bounds.maxFileBytes
  {
    assert (|s.nodes| + 1) * bounds.maxFileBytes == |s.nodes| * bounds.maxFileBytes + bounds.maxFileBytes;
    if |s.nodes| < bounds.maxNodes {
      RoomForOneMore(|s.nodes|, bounds.maxNodes, bounds.maxFileBytes, s.bytesRead);
    }
  }
}
