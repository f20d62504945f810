/** The bounded walk that collects the files of a workspace. */
module ScanWalk {
  import opened Common
  import opened Ordering
  import opened Trees
  import opened ListingOrder

  const SCAN_ENTRIES_PER_NODE: nat := 16
  const MIN_SCAN_ENTRIES: nat := 4096
  const MAX_SCAN_ENTRIES: nat := 16384
  const MAX_SCAN_BYTES: nat := 64 * 1024 * 1024
  const MAX_PROTECTED_COUNT: nat := 1024

  datatype Bounds = Bounds(maxNodes: nat, maxFileBytes: nat)

  function EntryLimit(bounds: Bounds): nat {
    var wanted := SatAdd(Sat(bounds.maxNodes * SCAN_ENTRIES_PER_NODE), 1);
    if wanted < MIN_SCAN_ENTRIES then MIN_SCAN_ENTRIES
    else if wanted > MAX_SCAN_ENTRIES then MAX_SCAN_ENTRIES
    else wanted
  }

  function ByteLimit(bounds: Bounds): nat {
    Min(Sat(bounds.maxNodes * bounds.maxFileBytes), MAX_SCAN_BYTES)
  }

  /** The ceilings: sixteen entries for each node and one more, between 4096 and 16384; and
      as many bytes as all nodes may hold, up to 64 MiB. */
  lemma CeilingsAre(bounds: Bounds)
    ensures 4096 <= EntryLimit(bounds) <= 16384
    ensures 4096 <= 16 * bounds.maxNodes + 1 <= 16384 ==> EntryLimit(bounds) == 16 * bounds.maxNodes + 1
    ensures 16 * bounds.maxNodes + 1 < 4096 ==> EntryLimit(bounds) == 4096
    ensures 16 * bounds.maxNodes + 1 > 16384 ==> EntryLimit(bounds) == 16384
    ensures ByteLimit(bounds) == Min(bounds.maxNodes * bounds.maxFileBytes, 67108864)
  {}

  /** One budget for a whole scan: no directory gets a fresh allowance. */
  class ScanBudget {
    const maxFileBytes: nat
    const maxBytes: nat
    const maxEntries: nat
    var entriesExamined: nat
    var bytesRead: nat
    var truncated: bool

    constructor (bounds: Bounds)
      ensures maxFileBytes == bounds.maxFileBytes
      ensures maxBytes == ByteLimit(bounds) && maxEntries == EntryLimit(bounds)
      ensures entriesExamined == 0 && bytesRead == 0 && !truncated
    {
      maxFileBytes, maxBytes, maxEntries := bounds.maxFileBytes, ByteLimit(bounds), EntryLimit(bounds);
      entriesExamined, bytesRead, truncated := 0, 0, false;
    }

    ghost predicate Valid()
      reads this
    {
      entriesExamined <= maxEntries && bytesRead <= maxBytes
    }

    method ConsumeEntry() returns (ok: bool)
      requires Valid()
      modifies this`entriesExamined, this`truncated
      ensures Valid()
      ensures ok <==> old(entriesExamined) < maxEntries
      ensures entriesExamined == old(entriesExamined) + if ok then 1 else 0
      ensures truncated == (old(truncated) || !ok)
    {
      if entriesExamined >= maxEntries {
        truncated := true;
        return false;
      }
      entriesExamined := entriesExamined + 1;
      return true;
    }

    /** The most that one read may take: the file bound or what is left of the total. */
    function ReadLimit(): (limit: nat)
      reads this
      ensures limit <= maxFileBytes && limit <= SatSub(maxBytes, bytesRead)
      ensures limit == maxFileBytes || limit == SatSub(maxBytes, bytesRead)
    {
      Min(SatSub(maxBytes, bytesRead), maxFileBytes)
    }

    method ChargeRead(bytes: nat)
      requires Valid()
      modifies this`bytesRead
      ensures Valid() && bytesRead == Min(old(bytesRead) + bytes, maxBytes)
    {
      bytesRead := Min(bytesRead + bytes, maxBytes);
    }

    method ChargeFailedRead()
      requires Valid()
      modifies this`bytesRead, this`truncated
      ensures Valid() && bytesRead == maxBytes && truncated
    {
      bytesRead := maxBytes;
      truncated := true;
    }
  }

  // ---- what a complete walk finds ----

  /** The files found, entries charged, protected entries counted, whether a protected
      directory was too large to count, and whether the walk must fail. */
  datatype Tally = Tally(paths: set<string>, visited: nat, protected: nat, overflow: bool, bad: bool)

  const ZERO := Tally({}, 0, 0, false, false)

  function Add(a: Tally, b: Tally): Tally {
    Tally(a.paths + b.paths, a.visited + b.visited, a.protected + b.protected,
          a.overflow || b.overflow, a.bad || b.bad)
  }

  lemma AddAssociates(a: Tally, b: Tally, c: Tally)
    ensures Add(Add(a, b), c) == Add(a, Add(b, c))
  {
    assert a.paths + b.paths + c.paths == a.paths + (b.paths + c.paths);
  }

  lemma AddOfThree(a: Tally, b: Tally, c: Tally)
    ensures var t := Add(a, Add(b, c));
            t.visited == a.visited + b.visited + c.visited && t.bad == (a.bad || b.bad || c.bad)
  {}

  lemma AddZero(a: Tally)
    ensures Add(a, ZERO) == a && Add(ZERO, a) == a
  {
    assert a.paths + {} == a.paths && {} + a.paths == a.paths;
  }

  type Protection = string -> bool

  /** A protected directory is counted one level deep, up to the telemetry cap. */
  function ProtectedTally(d: Node): Tally {
    if d.Dir? then
      var n := Listings(d);
      Tally({}, Min(n, MAX_PROTECTED_COUNT), Min(n, MAX_PROTECTED_COUNT), n > MAX_PROTECTED_COUNT, !d.readable)
    else Tally({}, 0, 1, false, false)
  }

  function OwnTally(d: Node): Tally
    requires d.Dir?
  {
    Tally({}, Listings(d), 0, false, !d.readable || d.undecodable > 0)
  }

  /** Everything below directory `d`, reached by plain recursion. */
  function DirTally(protect: Protection, rel: string, d: Node): Tally
    requires d.Dir?
    decreases d, 1
  {
    Add(OwnTally(d), EntriesTally(protect, rel, d.entries))
  }

  function EntriesTally(protect: Protection, rel: string, es: seq<Entry>): Tally
    decreases es, 0
  {
    if es == [] then ZERO
    else Add(EntryTally(protect, Join(rel, es[0].name), es[0].node), EntriesTally(protect, rel, es[1..]))
  }

  function EntryTally(protect: Protection, path: string, n: Node): Tally
    decreases n, 2
  {
    if protect(path) then ProtectedTally(n)
    else match n
         case File(_) => Tally({path}, 0, 0, false, false)
         case Dir(_, _, _) => DirTally(protect, path, n)
         case Link => ZERO
         case Special => ZERO
  }

  datatype Pending = Pending(rel: string, dir: Node)

  function StackTally(protect: Protection, dirs: seq<Pending>): Tally
    requires forall p :: p in dirs ==> p.dir.Dir?
  {
    if dirs == [] then ZERO
    else
      var p := dirs[|dirs| - 1];
      Add(StackTally(protect, dirs[..|dirs| - 1]), DirTally(protect, p.rel, p.dir))
  }

  // ---- the code ----

  /** Read one directory into a name-ordered map, charging every entry. */
  method ReadListing(listing: seq<Listed>, budget: ScanBudget)
    returns (entries: map<string, Node>, unsupported: bool)
    requires budget.Valid()
    modifies budget`entriesExamined, budget`truncated
    ensures budget.Valid() && budget.entriesExamined >= old(budget.entriesExamined)
    ensures entries != map[] ==> budget.entriesExamined > old(budget.entriesExamined)
    ensures old(budget.truncated) ==> budget.truncated
    ensures old(budget.entriesExamined) + |listing| <= budget.maxEntries ==>
              && (unsupported <==> Undecodable in listing)
              && (!unsupported ==> entries == MapOf(listing))
              && (!unsupported ==> budget.entriesExamined == old(budget.entriesExamined) + |listing|)
              && budget.truncated == old(budget.truncated)
    ensures old(budget.entriesExamined) + |listing| > budget.maxEntries ==> unsupported || budget.truncated
    ensures !unsupported ==> forall n :: n in entries ==> Named(n, entries[n]) in listing
    ensures ReadOutcome(listing, budget.maxEntries - old(budget.entriesExamined))
            == if unsupported then None else Some(entries)
  {
    entries, unsupported := map[], false;
    for i := 0 to |listing|
      invariant budget.Valid() && budget.entriesExamined == old(budget.entriesExamined) + i
      invariant budget.truncated == old(budget.truncated)
      invariant Undecodable !in listing[..i] && entries == MapOf(listing[..i])
      invariant forall n :: n in entries ==> Named(n, entries[n]) in listing
    {
      assert listing[..i + 1] == listing[..i] + [listing[i]];
      assert listing[..i + 1][..i] == listing[..i];
      var ok := budget.ConsumeEntry();
      if !ok {
        return;
      }
      match listing[i]
      case Undecodable =>
        assert listing[..i + 1][i] == Undecodable;
        unsupported := true;
        return;
      case Named(name, node) =>
        if name !in entries {
          entries := entries[name := node];
        }
    }
    assert listing[..|listing|] == listing;
  }

  /** `count_protected_entries`. */
  method CountProtected(d: Node, budget: ScanBudget) returns (failed: bool, counted: nat)
    requires d.Dir? && budget.Valid()
    modifies budget`entriesExamined, budget`truncated
    ensures budget.Valid() && budget.entriesExamined >= old(budget.entriesExamined)
    ensures old(budget.truncated) ==> budget.truncated
    ensures failed <==> !d.readable
    ensures var t := ProtectedTally(d);
            !failed && old(budget.entriesExamined) + t.visited <= budget.maxEntries ==>
              && counted == t.protected
              && budget.entriesExamined == old(budget.entriesExamined) + t.visited
              && budget.truncated == (old(budget.truncated) || t.overflow)
    ensures !failed && old(budget.entriesExamined) + ProtectedTally(d).visited > budget.maxEntries ==> budget.truncated
  {
    failed, counted := !d.readable, 0;
    if failed {
      return;
    }
    var n := Listings(d);
    while counted < MAX_PROTECTED_COUNT
      invariant counted <= Min(n, MAX_PROTECTED_COUNT)
      invariant budget.Valid() && budget.entriesExamined == old(budget.entriesExamined) + counted
      invariant budget.truncated == old(budget.truncated)
    {
      if counted == n {
        return;
      }
      var ok := budget.ConsumeEntry();
      if !ok {
        return;
      }
      counted := counted + 1;
    }
    if counted < n {
      budget.truncated := true;
    }
  }

  /** What the walk has so far: directories to open, files found, protected entries. */
  datatype Progress = Progress(dirs: seq<Pending>, files: seq<string>, protected: nat)

  ghost predicate Ready(p: Progress) {
    forall d :: d in p.dirs ==> d.dir.Dir? && Trees.Valid(d.dir)
  }

  /** Found and still to be found, together. */
  ghost function Total(protect: Protection, p: Progress, visited: nat, truncated: bool): Tally
    requires Ready(p)
  {
    Add(Tally(Elements(p.files), visited, p.protected, truncated, false), StackTally(protect, p.dirs))
  }

  /** Entries charged while looking at one name (its own directory is charged later). */
  function VisitCharge(protect: Protection, path: string, n: Node): nat {
    if protect(path) then ProtectedTally(n).visited else 0
  }

  lemma PushTally(protect: Protection, p: Progress, d: Pending, visited: nat, truncated: bool)
    requires Ready(p) && d.dir.Dir? && Trees.Valid(d.dir)
    ensures Ready(p.(dirs := p.dirs + [d]))
    ensures Total(protect, p.(dirs := p.dirs + [d]), visited, truncated)
            == Add(Total(protect, p, visited, truncated), DirTally(protect, d.rel, d.dir))
  {
    hide DirTally;
    var pushed := p.dirs + [d];
    assert pushed[..|pushed| - 1] == p.dirs;
    AddAssociates(Tally(Elements(p.files), visited, p.protected, truncated, false),
                  StackTally(protect, p.dirs), DirTally(protect, d.rel, d.dir));
  }

  lemma FoundTally(protect: Protection, p: Progress, q: Progress, visited: nat, truncated: bool, visited': nat,
                   truncated': bool, t: Tally)
    requires Ready(p) && Ready(q) && q.dirs == p.dirs && !t.bad
    requires Elements(q.files) == Elements(p.files) + t.paths
    requires visited' == visited + t.visited && q.protected == p.protected + t.protected
    requires truncated' == (truncated || t.overflow)
    ensures Total(protect, q, visited', truncated') == Add(Total(protect, p, visited, truncated), t)
  {
    hide StackTally;
    var stack := StackTally(protect, p.dirs);
    assert Elements(p.files) + t.paths + stack.paths == Elements(p.files) + stack.paths + t.paths;
  }

  /** One name of an opened directory. */
  method Visit(protect: Protection, path: string, n: Node, p: Progress, budget: ScanBudget)
    returns (failed: bool, q: Progress)
    requires Ready(p) && Trees.Valid(n) && budget.Valid()
    modifies budget`entriesExamined, budget`truncated
    ensures budget.Valid() && Ready(q) && old(budget.entriesExamined) <= budget.entriesExamined
    ensures old(budget.truncated) ==> budget.truncated
    ensures failed ==> EntryTally(protect, path, n).bad
    ensures old(budget.entriesExamined) + VisitCharge(protect, path, n) <= budget.maxEntries && !failed ==>
              && budget.entriesExamined == old(budget.entriesExamined) + VisitCharge(protect, path, n)
              && Total(protect, q, budget.entriesExamined, budget.truncated)
                 == Add(Total(protect, p, old(budget.entriesExamined), old(budget.truncated)), EntryTally(protect, path, n))
    ensures old(budget.entriesExamined) + VisitCharge(protect, path, n) > budget.maxEntries && !failed ==>
              budget.truncated
    ensures n.File? && !protect(path) ==> !failed && q == p.(files := p.files + [path])
  {
    hide StackTally, DirTally;
    failed, q := false, p;
    if protect(path) {
      var counted := 1;
      if n.Dir? {
        failed, counted := CountProtected(n, budget);
      }
      q := p.(protected := p.protected + counted);
      if !failed && old(budget.entriesExamined) + VisitCharge(protect, path, n) <= budget.maxEntries {
        FoundTally(protect, p, q, old(budget.entriesExamined), old(budget.truncated), budget.entriesExamined,
                   budget.truncated, ProtectedTally(n));
      }
    } else if n.Dir? {
      q := p.(dirs := p.dirs + [Pending(path, n)]);
      PushTally(protect, p, Pending(path, n), budget.entriesExamined, budget.truncated);
    } else if n.File? {
      q := p.(files := p.files + [path]);
      assert Elements(q.files) == Elements(p.files) + {path};
      FoundTally(protect, p, q, budget.entriesExamined, budget.truncated, budget.entriesExamined, budget.truncated,
                 Tally({path}, 0, 0, false, false));
    } else {
      AddZero(Total(protect, p, budget.entriesExamined, budget.truncated));
    }
  }

  lemma ChargeIsCounted(protect: Protection, path: string, n: Node)
    ensures VisitCharge(protect, path, n) <= EntryTally(protect, path, n).visited
  {}

  function EntriesOf(keys: seq<string>, m: map<string, Node>): seq<Entry>
    requires forall k :: k in keys ==> k in m
  {
    seq(|keys|, i requires 0 <= i < |keys| => Entry(keys[i], m[keys[i]]))
  }

  /** Plain files that the walk may report. */
  predicate PlainFiles(protect: Protection, rel: string, es: seq<Entry>) {
    forall e :: e in es ==> e.node.File? && !protect(Join(rel, e.name))
  }

  function PathsOf(rel: string, es: seq<Entry>): seq<string> {
    seq(|es|, i requires 0 <= i < |es| => Join(rel, es[i].name))
  }

  lemma EntriesUnfold(protect: Protection, rel: string, es: seq<Entry>, i: nat)
    requires i <= |es|
    ensures i < |es| ==>
              EntriesTally(protect, rel, es[i..])
              == Add(EntryTally(protect, Join(rel, es[i].name), es[i].node), EntriesTally(protect, rel, es[i + 1..]))
    ensures i < |es| ==>
              var all, here := EntriesTally(protect, rel, es[i..]), EntryTally(protect, Join(rel, es[i].name), es[i].node);
              var rest := EntriesTally(protect, rel, es[i + 1..]);
              all.visited == here.visited + rest.visited && all.bad == (here.bad || rest.bad)
    ensures i == |es| ==> EntriesTally(protect, rel, es[i..]) == ZERO
  {
    hide EntryTally;
    assert i < |es| ==> es[i..][1..] == es[i + 1..];
  }

  /** One entry later: what is found and what is left still add up. */
  lemma EntryTallied(protect: Protection, rel: string, es: seq<Entry>, i: nat, before: Tally, after: Tally, goal: Tally)
    requires i < |es| && Add(before, EntriesTally(protect, rel, es[i..])) == goal
    requires after == Add(before, EntryTally(protect, Join(rel, es[i].name), es[i].node))
    ensures Add(after, EntriesTally(protect, rel, es[i + 1..])) == goal
  {
    hide EntryTally, EntriesTally;
    EntriesUnfold(protect, rel, es, i);
    AddAssociates(before, EntryTally(protect, Join(rel, es[i].name), es[i].node), EntriesTally(protect, rel, es[i + 1..]));
  }

  /** All the names of an opened directory, in order. `cut` says that the entry budget
      ran out on the way. */
  method VisitAll(protect: Protection, rel: string, es: seq<Entry>, p: Progress, budget: ScanBudget)
    returns (failed: bool, q: Progress, ghost cut: bool)
    requires Ready(p) && budget.Valid() && forall e :: e in es ==> Trees.Valid(e.node)
    modifies budget`entriesExamined, budget`truncated
    ensures budget.Valid() && Ready(q) && old(budget.entriesExamined) <= budget.entriesExamined
    ensures es == [] ==> q == p
    ensures old(budget.truncated) ==> budget.truncated
    ensures !cut && failed ==> EntriesTally(protect, rel, es).bad
    ensures !cut && !failed ==>
              Total(protect, q, budget.entriesExamined, budget.truncated)
              == Add(Total(protect, p, old(budget.entriesExamined), old(budget.truncated)), EntriesTally(protect, rel, es))
    ensures cut && !failed ==> budget.truncated
    ensures cut ==> old(budget.entriesExamined) + EntriesTally(protect, rel, es).visited > budget.maxEntries
    ensures PlainFiles(protect, rel, es) ==> !failed && q == p.(files := p.files + PathsOf(rel, es))
  {
    hide Add, StackTally, EntryTally, EntriesTally, Total, VisitCharge, Join, Trees.Valid, PlainFiles;
    failed, q, cut := false, p, false;
    ghost var goal := Add(Total(protect, p, budget.entriesExamined, budget.truncated), EntriesTally(protect, rel, es));
    ghost var reach := budget.entriesExamined + EntriesTally(protect, rel, es).visited;
    var i := 0;
    assert es[0..] == es;
    while i < |es|
      invariant 0 <= i <= |es| && budget.Valid() && Ready(q) && !failed
      invariant PlainFiles(protect, rel, es) ==> q == p.(files := p.files + PathsOf(rel, es[..i]))
      invariant old(budget.entriesExamined) <= budget.entriesExamined && (i == 0 ==> q == p)
      invariant old(budget.truncated) ==> budget.truncated
      invariant !cut ==> Add(Total(protect, q, budget.entriesExamined, budget.truncated),
                             EntriesTally(protect, rel, es[i..])) == goal
      invariant !cut ==> budget.entriesExamined + EntriesTally(protect, rel, es[i..]).visited <= reach
      invariant !cut && EntriesTally(protect, rel, es[i..]).bad ==> EntriesTally(protect, rel, es).bad
      invariant cut ==> budget.truncated && reach > budget.maxEntries
    {
      var path := Join(rel, es[i].name);
      ghost var before := Total(protect, q, budget.entriesExamined, budget.truncated);
      ghost var here := EntryTally(protect, path, es[i].node);
      assert es[i] in es && es[..i + 1] == es[..i] + [es[i]];
      EntriesUnfold(protect, rel, es, i);
      ChargeIsCounted(protect, path, es[i].node);
      PlainFilesAt(protect, rel, es, i);
      ghost var examined := budget.entriesExamined;
      failed, q := Visit(protect, path, es[i].node, q, budget);
      if failed {
        return;
      }
      if examined + VisitCharge(protect, path, es[i].node) > budget.maxEntries {
        cut := true;
      }
      if !cut {
        EntryTallied(protect, rel, es, i, before, Total(protect, q, budget.entriesExamined, budget.truncated), goal);
      }
      i := i + 1;
    }
    assert es[..|es|] == es;
    if !cut {
      EntriesUnfold(protect, rel, es, |es|);
      AddZero(Total(protect, q, budget.entriesExamined, budget.truncated));
    }
  }

  lemma PlainFilesAt(protect: Protection, rel: string, es: seq<Entry>, i: nat)
    requires i < |es|
    ensures PlainFiles(protect, rel, es) ==> es[i].node.File? && !protect(Join(rel, es[i].name))
    ensures PathsOf(rel, es[..i + 1]) == PathsOf(rel, es[..i]) + [Join(rel, es[i].name)]
  {
    hide Join;
    assert es[i] in es;
  }

  lemma PopTally(protect: Protection, p: Progress, visited: nat, truncated: bool)
    requires Ready(p) && p.dirs != []
    ensures var d, q := p.dirs[|p.dirs| - 1], p.(dirs := p.dirs[..|p.dirs| - 1]);
            && Ready(q) && d.dir.Dir? && Trees.Valid(d.dir)
            && Total(protect, p, visited, truncated)
               == Add(Total(protect, q, visited, truncated),
                      Add(OwnTally(d.dir), EntriesTally(protect, d.rel, d.dir.entries)))
  {
    var d, q := p.dirs[|p.dirs| - 1], p.(dirs := p.dirs[..|p.dirs| - 1]);
    assert p.dirs == q.dirs + [d];
    PushTally(protect, q, d, visited, truncated);
  }

  lemma TotalAtLeast(protect: Protection, p: Progress, visited: nat, truncated: bool)
    requires Ready(p)
    ensures Total(protect, p, visited, truncated).visited >= visited
  {
    hide StackTally;
  }

  lemma OwnCharged(protect: Protection, q: Progress, visited: nat, truncated: bool, d: Node, below: Tally)
    requires Ready(q) && d.Dir? && d.readable && d.undecodable == 0
    ensures Add(Total(protect, q, visited + Listings(d), truncated), below)
            == Add(Total(protect, q, visited, truncated), Add(OwnTally(d), below))
  {
    hide Total, StackTally;
    FoundTally(protect, q, q, visited, truncated, visited + Listings(d), truncated, OwnTally(d));
    AddAssociates(Total(protect, q, visited, truncated), OwnTally(d), below);
  }

  /** The entries of a map, in name order. */
  ghost function EntriesByName(m: map<string, Node>): seq<Entry> {
    assert forall k :: k in InOrder(m.Keys) ==> k in Elements(InOrder(m.Keys));
    EntriesOf(InOrder(m.Keys), m)
  }

  lemma ListingInOrder(d: Node, listing: seq<Listed>, keys: seq<string>)
    requires d.Dir? && Trees.Valid(d) && multiset(listing) == multiset(AllListed(d))
    requires keys == InOrder(MapOf(listing).Keys) && forall k :: k in keys ==> k in MapOf(listing)
    ensures EntriesOf(keys, MapOf(listing)) == d.entries
  {
    ListingSorts(d, listing);
    hide MapOf, InOrder;
  }

  /** List one directory: its entries in name order, unless the budget cuts it short. */
  method ListDirectory(rel: string, d: Node, e: Enumeration, budget: ScanBudget)
    returns (failed: bool, es: seq<Entry>)
    requires Enumerates(e) && d.Dir? && Trees.Valid(d) && budget.Valid()
    modifies budget`entriesExamined, budget`truncated
    ensures budget.Valid() && old(budget.entriesExamined) <= budget.entriesExamined
    ensures old(budget.truncated) ==> budget.truncated
    ensures forall x :: x in es ==> Trees.Valid(x.node)
    ensures !failed && es != [] ==> old(budget.entriesExamined) < budget.entriesExamined
    ensures old(budget.entriesExamined) + Listings(d) <= budget.maxEntries ==>
              && (failed <==> OwnTally(d).bad)
              && (!failed ==> es == d.entries && budget.truncated == old(budget.truncated))
              && (!failed ==> budget.entriesExamined == old(budget.entriesExamined) + Listings(d))
    ensures old(budget.entriesExamined) + Listings(d) > budget.maxEntries && !failed ==> budget.truncated
    ensures var read := ReadOutcome(e(rel, d), budget.maxEntries - old(budget.entriesExamined));
            && (failed <==> !d.readable || read.None?)
            && (!failed ==> es == EntriesByName(read.value))
    ensures !failed ==> forall x :: x in es ==> x in d.entries
  {
    failed, es := !d.readable, [];
    if failed {
      return;
    }
    hide MapOf, Cut, InOrder, ReadOutcome;
    var listing := e(rel, d);
    ListingMember(d, listing, Undecodable);
    UndecodableListed(d);
    var entries;
    entries, failed := ReadListing(listing, budget);
    if failed {
      return;
    }
    var keys := ListInOrder(entries.Keys);
    assert forall k :: k in keys ==> k in Elements(keys);
    es := EntriesOf(keys, entries);
    ListedNodesAreValid(d, listing, entries, keys);
    HeadIsElement(keys);
    if old(budget.entriesExamined) + Listings(d) <= budget.maxEntries {
      ListingInOrder(d, listing, keys);
    }
  }

  /** A directory of plain files. */
  predicate Flat(protect: Protection, rel: string, d: Node) {
    d.Dir? && d.readable && d.undecodable == 0 && PlainFiles(protect, rel, d.entries)
  }

  /** The paths read from a flat directory with room for `room` more entries. */
  ghost function FlatPaths(rel: string, d: Node, e: Enumeration, room: nat): seq<string> {
    PathsOf(rel, EntriesByName(MapOf(Cut(e(rel, d), room))))
  }

  lemma FlatIsRead(protect: Protection, rel: string, d: Node, e: Enumeration, room: nat)
    requires Enumerates(e) && d.Dir?
    ensures Flat(protect, rel, d) ==>
              && d.readable && ReadOutcome(e(rel, d), room).Some?
              && FlatPaths(rel, d, e, room) == PathsOf(rel, EntriesByName(ReadOutcome(e(rel, d), room).value))
  {
    hide MapOf, EntriesByName, AllListed;
    if Flat(protect, rel, d) {
      ListingMember(d, e(rel, d), Undecodable);
      UndecodableListed(d);
    }
  }

  lemma FlatPart(protect: Protection, rel: string, d: Node, es: seq<Entry>)
    requires d.Dir? && forall x :: x in es ==> x in d.entries
    ensures Flat(protect, rel, d) ==> PlainFiles(protect, rel, es)
  {
    hide Join;
  }

  /** Open the directory on top of the stack. */
  method OpenDirectory(protect: Protection, e: Enumeration, p: Progress, budget: ScanBudget)
    returns (failed: bool, q: Progress, ghost cut: bool)
    requires Enumerates(e) && Ready(p) && p.dirs != [] && budget.Valid()
    modifies budget`entriesExamined, budget`truncated
    ensures budget.Valid() && Ready(q) && (old(budget.truncated) ==> budget.truncated)
    ensures budget.entriesExamined > old(budget.entriesExamined)
            || (budget.entriesExamined == old(budget.entriesExamined) && (failed || |q.dirs| < |p.dirs|))
    ensures var t := Total(protect, p, old(budget.entriesExamined), old(budget.truncated));
            && (!cut && failed ==> t.bad)
            && (!cut && !failed ==> Total(protect, q, budget.entriesExamined, budget.truncated) == t)
            && (cut && !failed ==> budget.truncated)
            && (cut ==> t.visited > budget.maxEntries)
    ensures var d, rest := p.dirs[|p.dirs| - 1], p.dirs[..|p.dirs| - 1];
            Flat(protect, d.rel, d.dir) ==>
              && !failed
              && q == p.(dirs := rest,
                         files := p.files + FlatPaths(d.rel, d.dir, e, budget.maxEntries - old(budget.entriesExamined)))
  {
    hide Add, StackTally, EntriesTally, Total, ReadOutcome, EntriesByName, PlainFiles, PathsOf, Flat, FlatPaths, Trees.Valid;
    PopTally(protect, p, budget.entriesExamined, budget.truncated);
    var d := p.dirs[|p.dirs| - 1];
    q := p.(dirs := p.dirs[..|p.dirs| - 1]);
    cut := budget.entriesExamined + Listings(d.dir) > budget.maxEntries;
    ghost var popped, visited, truncated := q, budget.entriesExamined, budget.truncated;
    TotalAtLeast(protect, q, visited, truncated);
    AddOfThree(Total(protect, q, visited, truncated), OwnTally(d.dir), EntriesTally(protect, d.rel, d.dir.entries));
    var es;
    FlatIsRead(protect, d.rel, d.dir, e, budget.maxEntries - budget.entriesExamined);
    failed, es := ListDirectory(d.rel, d.dir, e, budget);
    if failed {
      return;
    }
    FlatPart(protect, d.rel, d.dir, es);
    ghost var late;
    failed, q, late := VisitAll(protect, d.rel, es, q, budget);
    if !cut {
      OwnCharged(protect, popped, visited, truncated, d.dir, EntriesTally(protect, d.rel, es));
      cut := late;
    }
  }

  lemma ListedNodesAreValid(d: Node, listing: seq<Listed>, entries: map<string, Node>, keys: seq<string>)
    requires d.Dir? && Trees.Valid(d) && multiset(listing) == multiset(AllListed(d))
    requires forall n :: n in entries ==> Named(n, entries[n]) in listing
    requires forall k :: k in keys ==> k in entries
    ensures forall x :: x in EntriesOf(keys, entries) ==> Trees.Valid(x.node) && x in d.entries
  {
    forall x | x in EntriesOf(keys, entries) ensures Trees.Valid(x.node) && x in d.entries {
      assert x.name in entries && entries[x.name] == x.node;
      ListingMember(d, listing, Named(x.name, x.node));
      NamedListed(d, x.name, x.node);
    }
  }

  /** A walk of a flat root has not started, or it is over. */
  ghost predicate FlatSoFar(protect: Protection, root: Node, e: Enumeration, p: Progress, examined: nat, max: nat) {
    Flat(protect, "", root) ==>
      || (p == Progress([Pending("", root)], [], 0) && examined == 0)
      || p == Progress([], FlatFiles(root, e, max), 0)
  }

  lemma FlatStep(protect: Protection, root: Node, e: Enumeration, p: Progress, examined: nat, max: nat,
                 failed: bool, q: Progress, examined': nat)
    requires p.dirs != [] && examined <= max && FlatSoFar(protect, root, e, p, examined, max)
    requires var d, rest := p.dirs[|p.dirs| - 1], p.dirs[..|p.dirs| - 1];
             Flat(protect, d.rel, d.dir) ==>
               !failed && q == p.(dirs := rest, files := p.files + FlatPaths(d.rel, d.dir, e, max - examined))
    ensures FlatSoFar(protect, root, e, q, examined', max)
    ensures Flat(protect, "", root) ==> !failed
  {
    FlatPathsAreFiles(root, e, max);
    hide Flat, FlatPaths, FlatFiles;
    if Flat(protect, "", root) {
      assert p.dirs == [Pending("", root)] && p.dirs[..|p.dirs| - 1] == [];
    }
  }

  lemma FlatEnd(protect: Protection, root: Node, e: Enumeration, p: Progress, examined: nat, max: nat)
    requires p.dirs == [] && FlatSoFar(protect, root, e, p, examined, max)
    ensures Flat(protect, "", root) ==> p == Progress([], FlatFiles(root, e, max), 0)
  {
    hide Flat, FlatFiles;
  }

  /** Open directories until none is left. */
  method OpenAll(root: Node, e: Enumeration, protect: Protection, budget: ScanBudget)
    returns (failed: bool, p: Progress, ghost cut: bool)
    requires root.Dir? && Trees.Valid(root) && Enumerates(e)
    requires budget.Valid() && budget.entriesExamined == 0 && !budget.truncated
    modifies budget`entriesExamined, budget`truncated
    ensures budget.Valid()
    ensures var t := DirTally(protect, "", root);
            && (!cut && failed ==> t.bad)
            && (!cut && !failed ==>
                  t == Tally(Elements(p.files), budget.entriesExamined, p.protected, budget.truncated, false))
            && (cut && !failed ==> budget.truncated)
            && (cut ==> t.visited > budget.maxEntries)
    ensures Flat(protect, "", root) ==> !failed && p == Progress([], FlatFiles(root, e, budget.maxEntries), 0)
  {
    failed, p, cut := false, Progress([Pending("", root)], [], 0), false;
    ghost var goal := DirTally(protect, "", root);
    StartTally(protect, root);
    assert FlatSoFar(protect, root, e, p, 0, budget.maxEntries);
    hide StackTally, DirTally, Total, FlatPaths, FlatFiles, Flat, FlatSoFar, Trees.Valid, Enumerates;
    while p.dirs != []
      invariant Ready(p) && budget.Valid()
      invariant !cut ==> Total(protect, p, budget.entriesExamined, budget.truncated) == goal
      invariant cut ==> budget.truncated && goal.visited > budget.maxEntries
      invariant FlatSoFar(protect, root, e, p, budget.entriesExamined, budget.maxEntries)
      decreases budget.maxEntries - budget.entriesExamined, |p.dirs|
    {
      ghost var now, was, examined := false, p, budget.entriesExamined;
      failed, p, now := OpenDirectory(protect, e, p, budget);
      FlatStep(protect, root, e, was, examined, budget.maxEntries, failed, p, budget.entriesExamined);
      cut := cut || now;
      if failed {
        return;
      }
    }
    if !cut {
      EndTally(protect, p, budget.entriesExamined, budget.truncated);
    }
    FlatEnd(protect, root, e, p, budget.entriesExamined, budget.maxEntries);
  }

  datatype Collected = Collected(files: seq<string>, protected: nat)

  /** `collect_all_files`. Whether the entry budget suffices is a fact about the tree,
      not about the order its directories are listed in; when it does, so is the whole
      result. When it does not, the scan fails or reports truncation, and what it
      collects depends on the order: from a flat root, what is listed first. */
  method CollectAllFiles(root: Node, e: Enumeration, protect: Protection, budget: ScanBudget)
    returns (r: Option<Collected>)
    requires root.Dir? && Trees.Valid(root) && Enumerates(e)
    requires budget.entriesExamined == 0 && budget.bytesRead == 0 && !budget.truncated
    modifies budget`entriesExamined, budget`truncated
    ensures budget.Valid()
    ensures r.Some? ==> Ascending(r.value.files)
    ensures var t := DirTally(protect, "", root);
            && (t.visited <= budget.maxEntries ==>
                  && (r.None? <==> t.bad)
                  && (r.Some? ==> r.value == Collected(InOrder(t.paths), t.protected) && budget.truncated == t.overflow))
            && (t.visited > budget.maxEntries ==> r.None? || budget.truncated)
    ensures Flat(protect, "", root) ==> r == Some(Collected(FlatFiles(root, e, budget.maxEntries), 0))
  {
    hide DirTally, Flat, Enumerates;
    ghost var goal := DirTally(protect, "", root);
    ghost var cut;
    var failed, p;
    failed, p, cut := OpenAll(root, e, protect, budget);
    if failed {
      return None;
    }
    var files := SortDedup(p.files);
    if !cut {
      AscendingUnique(files, InOrder(goal.paths));
    }
    FlatPathsAreFiles(root, e, budget.maxEntries);
    if Flat(protect, "", root) {
      AscendingUnique(files, FlatFiles(root, e, budget.maxEntries));
    }
    r := Some(Collected(files, p.protected));
  }

  /** At the root, paths are names. */
  lemma FlatPathsAreFiles(root: Node, e: Enumeration, max: nat)
    ensures FlatPaths("", root, e, max) == FlatFiles(root, e, max) && Ascending(FlatFiles(root, e, max))
  {
    hide MapOf, InOrder;
  }

  lemma StartTally(protect: Protection, root: Node)
    requires root.Dir? && Trees.Valid(root)
    ensures Total(protect, Progress([Pending("", root)], [], 0), 0, false) == DirTally(protect, "", root)
  {
    hide DirTally, StackTally, Trees.Valid;
    var none := Progress([], [], 0);
    EndTally(protect, none, 0, false);
    PushTally(protect, none, Pending("", root), 0, false);
    assert none.(dirs := none.dirs + [Pending("", root)]) == Progress([Pending("", root)], [], 0);
    var t := DirTally(protect, "", root);
    assert Elements<string>([]) == {};
    AddZero(t);
  }

  lemma EndTally(protect: Protection, p: Progress, visited: nat, truncated: bool)
    requires p.dirs == []
    ensures Total(protect, p, visited, truncated) == Tally(Elements(p.files), visited, p.protected, truncated, false)
  {
    AddZero(Tally(Elements(p.files), visited, p.protected, truncated, false));
  }
}
