/** The manifest fingerprint of a local reference directory. */
module Manifest {
  import opened Common
  import opened Ordering
  import opened Trees
  import opened ScanReach

  const MAX_DEPTH: nat := 64
  const ENTRIES_FACTOR: nat := 2

  datatype Limits = Limits(maxEntries: nat, maxFileBytes: nat, maxBytes: nat)

  datatype Hashed = Hashed(path: string, hash: Digest)

  /** What a whole subtree holds and costs; `bad` when it cannot be fingerprinted. */
  datatype Census = Census(files: multiset<Hashed>, dirs: nat, entries: nat, bytes: nat, bad: bool)

  const ZERO := Census(multiset{}, 0, 0, 0, false)

  function Add(a: Census, b: Census): Census {
    Census(a.files + b.files, a.dirs + b.dirs, a.entries + b.entries, a.bytes + b.bytes, a.bad || b.bad)
  }

  lemma AddAssociates(a: Census, b: Census, c: Census)
    ensures Add(Add(a, b), c) == Add(a, Add(b, c))
  {
    assert a.files + b.files + c.files == a.files + (b.files + c.files);
  }

  lemma AddZero(a: Census)
    ensures Add(a, ZERO) == a && Add(ZERO, a) == a
  {
    assert a.files + multiset{} == a.files && multiset{} + a.files == a.files;
  }

  /** Segments of a relative path; the root counts as one. */
  function Segments(path: string): nat {
    if path == "" then 1 else Segments(path[1..]) + if path[0] == '/' then 1 else 0
  }

  function OwnCensus(rel: string, d: Node): Census
    requires d.Dir?
  {
    Census(multiset{}, 1, Listings(d), 0, !d.readable || d.undecodable > 0 || Segments(rel) > MAX_DEPTH)
  }

  /** The plain recursive flatten. */
  function DirCensus(limits: Limits, rel: string, d: Node): Census
    requires d.Dir?
    decreases d, 1
  {
    Add(OwnCensus(rel, d), EntriesCensus(limits, rel, d.entries))
  }

  function EntriesCensus(limits: Limits, rel: string, es: seq<Entry>): Census
    decreases es, 0
  {
    if es == [] then ZERO
    else Add(EntryCensus(limits, Join(rel, es[0].name), es[0].node), EntriesCensus(limits, rel, es[1..]))
  }

  function EntryCensus(limits: Limits, path: string, n: Node): Census
    decreases n, 2
  {
    match n
    case File(bytes) =>
      Census(multiset{Hashed(path, Sha256(bytes))}, 0, 0, |bytes|, |bytes| > limits.maxFileBytes)
    case Dir(_, _, _) => DirCensus(limits, path, n)
    case Link => ZERO
    case Special => ZERO.(bad := true)
  }

  predicate Within(limits: Limits, c: Census) {
    && !c.bad
    && c.dirs <= limits.maxEntries
    && c.entries <= limits.maxEntries * ENTRIES_FACTOR
    && |c.files| <= limits.maxEntries
    && c.bytes <= limits.maxBytes
  }

  lemma WithinParts(limits: Limits, a: Census, b: Census)
    requires Within(limits, Add(a, b))
    ensures Within(limits, a) && Within(limits, b)
  {
    assert |a.files + b.files| == |a.files| + |b.files|;
  }

  // ---- hashing one file ----

  /** How many bytes each `read` call returns; a short read is not the end. */
  type Chunks = nat -> nat

  /** `hash_file_bounded`: whatever the sizes of the reads, the hash is of all the bytes,
      and the file is refused exactly when it is larger than the bound. */
  method HashFileBounded(bytes: Bytes, chunks: Chunks, max: nat) returns (r: Option<Digest>)
    requires forall k :: 1 <= chunks(k)
    ensures r == if |bytes| <= max then Some(Sha256(bytes)) else None
  {
    var hashed: Bytes, total, k := [], 0, 0;
    while total < |bytes|
      invariant total <= |bytes| && total <= max && hashed == bytes[..total] && 0 <= k
    {
      var read := Min(chunks(k), Min(64 * 1024, |bytes| - total));
      if total + read > max {
        return None;
      }
      hashed := hashed + bytes[total..total + read];
      total, k := total + read, k + 1;
    }
    assert bytes[..|bytes|] == bytes;
    return Some(Sha256(hashed));
  }

  // ---- the stack-driven walk ----

  datatype Pending = Pending(dir: Node, rel: string)

  function StackCensus(limits: Limits, pending: seq<Pending>): Census
    requires forall p :: p in pending ==> p.dir.Dir?
  {
    if pending == [] then ZERO
    else
      var p := pending[|pending| - 1];
      Add(StackCensus(limits, pending[..|pending| - 1]), DirCensus(limits, p.rel, p.dir))
  }

  ghost predicate Ready(pending: seq<Pending>) {
    forall p :: p in pending ==> p.dir.Dir? && Valid(p.dir)
  }

  /** Files found so far and the counters of the walk. */
  datatype Walk = Walk(files: seq<Hashed>, bytes: nat, dirs: nat, entries: nat)

  ghost function Found(w: Walk): Census {
    Census(multiset(w.files), w.dirs, w.entries, w.bytes, false)
  }

  ghost function Total(limits: Limits, w: Walk, pending: seq<Pending>): Census
    requires Ready(pending)
  {
    Add(Found(w), StackCensus(limits, pending))
  }

  lemma PushCensus(limits: Limits, w: Walk, pending: seq<Pending>, p: Pending)
    requires Ready(pending) && p.dir.Dir? && Valid(p.dir)
    ensures Ready(pending + [p])
    ensures Total(limits, w, pending + [p]) == Add(Total(limits, w, pending), DirCensus(limits, p.rel, p.dir))
  {
    hide DirCensus;
    assert (pending + [p])[..|pending|] == pending;
    AddAssociates(Found(w), StackCensus(limits, pending), DirCensus(limits, p.rel, p.dir));
  }

  lemma CountCensus(limits: Limits, w: Walk, w': Walk, pending: seq<Pending>, c: Census)
    requires Ready(pending) && !c.bad && Found(w') == Add(Found(w), c)
    ensures Total(limits, w', pending) == Add(Total(limits, w, pending), c)
  {
    hide StackCensus;
    var stack := StackCensus(limits, pending);
    assert Found(w).files + c.files + stack.files == Found(w).files + stack.files + c.files;
  }

  /** One name of a directory. */
  method Enter(limits: Limits, chunks: Chunks, path: string, n: Node, w: Walk, pending: seq<Pending>)
    returns (failed: bool, w': Walk, pending': seq<Pending>)
    requires Ready(pending) && Valid(n) && forall k :: 1 <= chunks(k)
    requires Within(limits, Found(w))
    ensures Ready(pending')
    ensures failed <==> !Within(limits, Add(Found(w), if n.Dir? then ZERO else EntryCensus(limits, path, n)))
    ensures !failed ==>
              && Total(limits, w', pending') == Add(Total(limits, w, pending), EntryCensus(limits, path, n))
              && Within(limits, Found(w')) && w'.dirs == w.dirs
  {
    hide DirCensus, StackCensus;
    failed, w', pending' := false, w, pending;
    match n
    case Link =>
      AddZero(Found(w));
      AddZero(Total(limits, w, pending));
    case Special =>
      failed := true;
    case Dir(_, _, _) =>
      pending' := pending + [Pending(n, path)];
      PushCensus(limits, w, pending, Pending(n, path));
      AddZero(Found(w));
    case File(bytes) =>
      var c := EntryCensus(limits, path, n);
      if |bytes| > limits.maxFileBytes {
        return true, w, pending;
      }
      var hash := HashFileBounded(bytes, chunks, limits.maxFileBytes);
      w' := w.(files := w.files + [Hashed(path, hash.value)], bytes := w.bytes + |bytes|);
      assert Found(w') == Add(Found(w), c);
      assert |multiset(w'.files)| == |w'.files|;
      CountCensus(limits, w, w', pending, c);
      failed := |w'.files| > limits.maxEntries || w'.bytes > limits.maxBytes;
  }

  lemma WithinSkip(limits: Limits, found: Census, stack: Census, c: Census, rest: Census)
    requires Within(limits, Add(Add(Add(found, stack), c), rest))
    ensures Within(limits, Add(found, c)) && Within(limits, found)
  {
    WithinParts(limits, Add(Add(found, stack), c), rest);
    assert |found.files + stack.files + c.files| == |found.files| + |stack.files| + |c.files|;
    assert |found.files + c.files| == |found.files| + |c.files|;
  }

  /** All the names of a directory, in order. */
  method EnterAll(limits: Limits, chunks: Chunks, rel: string, es: seq<Entry>, w: Walk, pending: seq<Pending>)
    returns (failed: bool, w': Walk, pending': seq<Pending>)
    requires Ready(pending) && (forall e :: e in es ==> Valid(e.node)) && forall k :: 1 <= chunks(k)
    requires Within(limits, Found(w))
    ensures Ready(pending')
    ensures failed ==> !Within(limits, Add(Total(limits, w, pending), EntriesCensus(limits, rel, es)))
    ensures !failed ==>
              && Total(limits, w', pending') == Add(Total(limits, w, pending), EntriesCensus(limits, rel, es))
              && Within(limits, Found(w')) && w'.dirs == w.dirs
  {
    hide StackCensus, EntryCensus, Within;
    failed, w', pending' := false, w, pending;
    ghost var goal := Add(Total(limits, w, pending), EntriesCensus(limits, rel, es));
    var i := 0;
    while i < |es|
      invariant 0 <= i <= |es| && Ready(pending') && Within(limits, Found(w')) && w'.dirs == w.dirs && !failed
      invariant Add(Total(limits, w', pending'), EntriesCensus(limits, rel, es[i..])) == goal
    {
      var path := Join(rel, es[i].name);
      assert es[i..][1..] == es[i + 1..] && es[i] in es;
      ghost var here, rest := EntryCensus(limits, path, es[i].node), EntriesCensus(limits, rel, es[i + 1..]);
      AddAssociates(Total(limits, w', pending'), here, rest);
      ghost var was, stack := Found(w'), StackCensus(limits, pending');
      failed, w', pending' := Enter(limits, chunks, path, es[i].node, w', pending');
      if failed {
        if Within(limits, goal) {
          WithinSkip(limits, was, stack, here, rest);
          AddZero(was);
        }
        return;
      }
      i := i + 1;
    }
    assert es[|es|..] == [];
    AddZero(Total(limits, w', pending'));
  }

  /** Collect the names of one directory, charging each against the entry budget. */
  method ReadNames(listing: seq<Listed>, entries: nat, max: nat)
    returns (failed: bool, names: map<string, Node>, entries': nat)
    requires entries <= max
    ensures failed <==> entries + |listing| > max || Undecodable in listing
    ensures !failed ==> names == MapOf(listing) && entries' == entries + |listing|
  {
    failed, names, entries' := false, map[], entries;
    for i := 0 to |listing|
      invariant entries' == entries + i <= max
      invariant Undecodable !in listing[..i] && names == MapOf(listing[..i])
    {
      assert listing[..i + 1] == listing[..i] + [listing[i]];
      assert listing[..i + 1][..i] == listing[..i];
      entries' := entries' + 1;
      if entries' > max || listing[i].Undecodable? {
        assert listing[i] in listing;
        return true, names, entries';
      }
      if listing[i].name !in names {
        names := names[listing[i].name := listing[i].node];
      }
    }
    assert listing[..|listing|] == listing;
  }

  /** The entries of directory `d`, sorted by name, or failure. */
  method ListSorted(rel: string, d: Node, e: Enumeration, entries: nat, max: nat)
    returns (failed: bool, es: seq<Entry>, entries': nat)
    requires Enumerates(e) && d.Dir? && Valid(d) && entries <= max
    ensures failed <==> entries + Listings(d) > max || d.undecodable > 0
    ensures !failed ==> es == d.entries && entries' == entries + Listings(d)
  {
    var listing := e(rel, d);
    ListingMember(d, listing, Undecodable);
    UndecodableListed(d);
    ListingSorts(d, listing);
    es := [];
    var names;
    failed, names, entries' := ReadNames(listing, entries, max);
    if failed {
      return;
    }
    var keys := ListInOrder(names.Keys);
    assert forall k :: k in keys ==> k in Elements(keys);
    es := seq(|keys|, i requires 0 <= i < |keys| => Entry(keys[i], names[keys[i]]));
    assert es == d.entries;
  }

  lemma PopCensus(limits: Limits, w: Walk, pending: seq<Pending>)
    requires Ready(pending) && pending != []
    ensures var p, rest := pending[|pending| - 1], pending[..|pending| - 1];
            && Ready(rest) && p.dir.Dir? && Valid(p.dir)
            && Total(limits, w, pending) ==
               Add(Total(limits, w, rest), Add(OwnCensus(p.rel, p.dir), EntriesCensus(limits, p.rel, p.dir.entries)))
  {
    var p, rest := pending[|pending| - 1], pending[..|pending| - 1];
    assert pending == rest + [p];
    PushCensus(limits, w, rest, p);
  }

  /** One directory of the stack. */
  method OpenOne(limits: Limits, e: Enumeration, chunks: Chunks, w: Walk, pending: seq<Pending>)
    returns (failed: bool, w': Walk, pending': seq<Pending>)
    requires Enumerates(e) && Ready(pending) && pending != [] && forall k :: 1 <= chunks(k)
    requires Within(limits, Found(w))
    ensures Ready(pending')
    ensures failed ==> !Within(limits, Total(limits, w, pending))
    ensures !failed ==> Total(limits, w', pending') == Total(limits, w, pending)
    ensures !failed ==> Within(limits, Found(w')) && w'.dirs == w.dirs + 1
  {
    hide StackCensus, EntriesCensus;
    PopCensus(limits, w, pending);
    var p := pending[|pending| - 1];
    pending' := pending[..|pending| - 1];
    ghost var own, below := OwnCensus(p.rel, p.dir), EntriesCensus(limits, p.rel, p.dir.entries);
    AddAssociates(Total(limits, w, pending'), own, below);
    if Within(limits, Total(limits, w, pending)) {
      WithinSkip(limits, Found(w), StackCensus(limits, pending'), own, below);
    }
    w' := w.(dirs := w.dirs + 1);
    if w'.dirs > limits.maxEntries || Segments(p.rel) > MAX_DEPTH || !p.dir.readable {
      return true, w', pending';
    }
    var es, entries;
    failed, es, entries := ListSorted(p.rel, p.dir, e, w.entries, limits.maxEntries * ENTRIES_FACTOR);
    if failed {
      return;
    }
    w' := w'.(entries := entries);
    assert Found(w') == Add(Found(w), own);
    CountCensus(limits, w, w', pending', own);
    failed, w', pending' := EnterAll(limits, chunks, p.rel, es, w', pending');
  }

  function PathLeq(a: Hashed, b: Hashed): bool {
    StrLeq(a.path, b.path)
  }

  lemma PathPreorder()
    ensures Preorder(PathLeq)
  {
    forall a: Hashed, b: Hashed ensures PathLeq(a, b) || PathLeq(b, a) {
      StrTotal(a.path, b.path);
    }
    forall a: Hashed, b: Hashed, c: Hashed | PathLeq(a, b) && PathLeq(b, c) ensures PathLeq(a, c) {
      StrTransitive(a.path, b.path, c.path);
    }
  }

  /** A manifest: sorted by path, and exactly the files of a tree. */
  ghost predicate IsManifest(limits: Limits, root: Node, files: seq<Hashed>)
    requires root.Dir?
  {
    multiset(files) == DirCensus(limits, "", root).files && Sorted(files, PathLeq)
  }

  /** `build_manifest`. It succeeds exactly when the recursive flatten of the tree is
      within every limit, whatever the order of enumeration, and then lists the files
      of that flatten, sorted by path. */
  method BuildManifest(limits: Limits, root: Node, e: Enumeration, chunks: Chunks) returns (r: Option<seq<Hashed>>)
    requires root.Dir? && Valid(root) && Enumerates(e) && forall k :: 1 <= chunks(k)
    ensures r.Some? <==> Within(limits, DirCensus(limits, "", root))
    ensures r.Some? ==> IsManifest(limits, root, r.value)
  {
    var w, pending := Walk([], 0, 0, 0), [Pending(root, "")];
    ghost var goal := DirCensus(limits, "", root);
    StartCensus(limits, root);
    StartWithin(limits);
    hide StackCensus, DirCensus;
    while pending != []
      invariant Ready(pending) && Within(limits, Found(w)) && Total(limits, w, pending) == goal
      decreases limits.maxEntries - w.dirs
    {
      var failed;
      failed, w, pending := OpenOne(limits, e, chunks, w, pending);
      if failed {
        return None;
      }
    }
    EmptyStack(limits, w);
    PathPreorder();
    SortSorts(w.files, PathLeq);
    SortPermutes(w.files, PathLeq);
    r := Some(Sort(w.files, PathLeq));
  }

  lemma StartCensus(limits: Limits, root: Node)
    requires root.Dir? && Valid(root)
    ensures Total(limits, Walk([], 0, 0, 0), [Pending(root, "")]) == DirCensus(limits, "", root)
  {
    hide DirCensus, StackCensus, Valid;
    var w := Walk([], 0, 0, 0);
    EmptyStack(limits, w);
    PushCensus(limits, w, [], Pending(root, ""));
    assert [] + [Pending(root, "")] == [Pending(root, "")];
    var c := DirCensus(limits, "", root);
    AddZero(c);
  }

  lemma StartWithin(limits: Limits)
    ensures Within(limits, Found(Walk([], 0, 0, 0)))
  {
    assert |multiset(Walk([], 0, 0, 0).files)| == 0;
  }

  lemma EmptyStack(limits: Limits, w: Walk)
    ensures Total(limits, w, []) == Found(w)
  {
    AddZero(Found(w));
  }

  // ---- what the manifest and its fingerprint mean ----

  lemma {:induction false} EntriesFiles(limits: Limits, rel: string, es: seq<Entry>, x: Hashed)
    ensures x in EntriesCensus(limits, rel, es).files <==>
              exists e :: e in es && x in EntryCensus(limits, Join(rel, e.name), e.node).files
  {
    if es != [] {
      EntriesFiles(limits, rel, es[1..], x);
      assert es == [es[0]] + es[1..];
      hide EntryCensus;
      assert x in EntriesCensus(limits, rel, es).files <==>
             x in EntryCensus(limits, Join(rel, es[0].name), es[0].node).files || x in EntriesCensus(limits, rel, es[1..]).files;
    }
  }

  /** `x` is the file at `path` below `d`, with the hash of its bytes. */
  ghost predicate IsFileAt(rel: string, d: Node, path: string, x: Hashed) {
    FileAt(d, path).Some? && x == Hashed(Join(rel, path), Sha256(FileAt(d, path).value))
  }

  lemma {:induction false} CensusFileResolves(limits: Limits, rel: string, d: Node, x: Hashed) returns (path: string)
    requires d.Dir? && Valid(d) && x in DirCensus(limits, rel, d).files
    ensures IsFileAt(rel, d, path, x)
    decreases d
  {
    EntriesFiles(limits, rel, d.entries, x);
    assert x in EntriesCensus(limits, rel, d.entries).files;
    var e :| e in d.entries && x in EntryCensus(limits, Join(rel, e.name), e.node).files;
    hide EntriesCensus;
    if e.node.File? {
      path := e.name;
      EntryFileResolves(rel, d, e, x);
    } else {
      assert e.node < d;
      var rest := CensusFileResolves(limits, Join(rel, e.name), e.node, x);
      path := e.name + "/" + rest;
      EntryDirResolves(rel, d, e, rest, x);
    }
  }

  lemma EntryFileResolves(rel: string, d: Node, e: Entry, x: Hashed)
    requires d.Dir? && Valid(d) && e in d.entries && e.node.File?
    requires x == Hashed(Join(rel, e.name), Sha256(e.node.bytes))
    ensures IsFileAt(rel, d, e.name, x)
  {
    ChildOfEntry(d, e);
    SlashAfterName(e.name, "");
    assert e.name[..|e.name|] == e.name;
  }

  lemma EntryDirResolves(rel: string, d: Node, e: Entry, rest: string, x: Hashed)
    requires d.Dir? && Valid(d) && e in d.entries && IsFileAt(Join(rel, e.name), e.node, rest, x)
    ensures IsFileAt(rel, d, e.name + "/" + rest, x)
  {
    var path := e.name + "/" + rest;
    ChildOfEntry(d, e);
    SlashAfterName(e.name, rest);
    JoinNested(rel, e.name, rest);
    assert path[..|e.name|] == e.name && path[|e.name| + 1..] == rest;
  }

  /** The first step of resolving a file. */
  lemma FileStep(d: Node, path: string)
    requires d.Dir? && FileAt(d, path).Some?
    ensures var i := Slash(path);
            && Child(d.entries, path[..i]).Some?
            && var c := Child(d.entries, path[..i]).value;
               && (i == |path| ==> c == File(FileAt(d, path).value))
               && (i < |path| ==> c.Dir? && FileAt(c, path[i + 1..]) == FileAt(d, path))
  {
    var i := Slash(path);
    var c := Child(d.entries, path[..i]).value;
    if i < |path| {
      assert FileAt(c, path[i + 1..]).Some?;
    }
  }

  lemma {:induction false} ResolvedFileIsInCensus(limits: Limits, rel: string, d: Node, path: string)
    requires d.Dir? && Valid(d) && FileAt(d, path).Some?
    ensures Hashed(Join(rel, path), Sha256(FileAt(d, path).value)) in DirCensus(limits, rel, d).files
    decreases |path|
  {
    hide EntriesCensus, Child, FileAt;
    FileStep(d, path);
    var i := Slash(path);
    var name, x := path[..i], Hashed(Join(rel, path), Sha256(FileAt(d, path).value));
    ChildIsEntry(d.entries, name);
    var e := Entry(name, Child(d.entries, name).value);
    EntriesFiles(limits, rel, d.entries, x);
    assert e in d.entries && Valid(e.node);
    if i < |path| {
      var rest := path[i + 1..];
      assert path == name + "/" + rest;
      ResolvedFileIsInCensus(limits, Join(rel, name), e.node, rest);
      JoinNested(rel, name, rest);
    } else {
      assert path == name;
    }
    assert x in EntryCensus(limits, Join(rel, name), e.node).files;
  }

  /** The flatten holds exactly the files that resolve from the root without links. */
  lemma CensusIsExact(limits: Limits, root: Node, x: Hashed)
    requires root.Dir? && Valid(root)
    ensures x in DirCensus(limits, "", root).files <==> IsFileAt("", root, x.path, x)
  {
    if x in DirCensus(limits, "", root).files {
      var path := CensusFileResolves(limits, "", root, x);
    }
    if IsFileAt("", root, x.path, x) {
      ResolvedFileIsInCensus(limits, "", root, x.path);
    }
  }

  /** Files contributed by the entry `name` start with that name. */
  lemma EntryPathUnder(limits: Limits, rel: string, e: Entry, x: Hashed) returns (path: string)
    requires NameOk(e.name) && Valid(e.node) && x in EntryCensus(limits, Join(rel, e.name), e.node).files
    ensures x.path == Join(rel, path) && path[..Slash(path)] == e.name
  {
    SlashAfterName(e.name, "");
    if e.node.File? {
      path := e.name;
    } else {
      var rest := CensusFileResolves(limits, Join(rel, e.name), e.node, x);
      path := e.name + "/" + rest;
      SlashAfterName(e.name, rest);
      JoinNested(rel, e.name, rest);
    }
  }

  lemma DifferentEntriesDifferentFiles(limits: Limits, rel: string, e: Entry, f: Entry, x: Hashed)
    requires NameOk(e.name) && Valid(e.node) && NameOk(f.name) && Valid(f.node) && e.name != f.name
    requires x in EntryCensus(limits, Join(rel, e.name), e.node).files
    ensures x !in EntryCensus(limits, Join(rel, f.name), f.node).files
  {
    if x in EntryCensus(limits, Join(rel, f.name), f.node).files {
      var p := EntryPathUnder(limits, rel, e, x);
      var q := EntryPathUnder(limits, rel, f, x);
      JoinInjective(rel, p, q);
    }
  }

  /** Every file is in the flatten once. */
  lemma {:induction false} DirOnce(limits: Limits, rel: string, d: Node, x: Hashed)
    requires d.Dir? && Valid(d)
    ensures DirCensus(limits, rel, d).files[x] <= 1
    decreases d, 1
  {
    EntriesOnce(limits, rel, d.entries, x);
  }

  lemma {:induction false} EntryOnce(limits: Limits, path: string, n: Node, x: Hashed)
    requires Valid(n)
    ensures EntryCensus(limits, path, n).files[x] <= 1
    decreases n, 2
  {
    if n.Dir? {
      DirOnce(limits, path, n, x);
    }
  }

  lemma {:induction false} EntriesOnce(limits: Limits, rel: string, es: seq<Entry>, x: Hashed)
    requires Ascending(Names(es)) && forall i :: 0 <= i < |es| ==> NameOk(es[i].name) && Valid(es[i].node)
    ensures EntriesCensus(limits, rel, es).files[x] <= 1
    decreases es, 0
  {
    hide EntryCensus, DirCensus;
    if es != [] {
      var e, rest := es[0], es[1..];
      assert forall j :: 0 <= j < |rest| ==> Names(rest)[j] == Names(es)[j + 1];
      EntriesOnce(limits, rel, rest, x);
      EntryOnce(limits, Join(rel, e.name), e.node, x);
      if x in EntryCensus(limits, Join(rel, e.name), e.node).files {
        NotBelow(limits, rel, es, x);
      }
    }
  }

  lemma NotBelow(limits: Limits, rel: string, es: seq<Entry>, x: Hashed)
    requires Ascending(Names(es)) && forall i :: 0 <= i < |es| ==> NameOk(es[i].name) && Valid(es[i].node)
    requires es != [] && x in EntryCensus(limits, Join(rel, es[0].name), es[0].node).files
    ensures x !in EntriesCensus(limits, rel, es[1..]).files
  {
    hide EntryCensus, EntriesCensus;
    EntriesFiles(limits, rel, es[1..], x);
    forall f | f in es[1..] ensures x !in EntryCensus(limits, Join(rel, f.name), f.node).files {
      var j :| 0 <= j < |es[1..]| && es[1..][j] == f;
      assert Names(es)[0] == es[0].name && Names(es)[j + 1] == f.name;
      DifferentEntriesDifferentFiles(limits, rel, es[0], f, x);
    }
  }

  /** Manifest paths are strictly ascending: no path occurs twice. */
  lemma ManifestAscends(limits: Limits, root: Node, files: seq<Hashed>)
    requires root.Dir? && Valid(root) && IsManifest(limits, root, files)
    ensures forall i, j :: 0 <= i < j < |files| ==> StrLt(files[i].path, files[j].path)
    ensures forall x :: x in files <==> IsFileAt("", root, x.path, x)
  {
    hide DirCensus, FileAt;
    var census := DirCensus(limits, "", root).files;
    forall x ensures x in files <==> IsFileAt("", root, x.path, x) {
      assert x in files <==> x in multiset(files);
      CensusIsExact(limits, root, x);
    }
    forall i, j | 0 <= i < j < |files| ensures StrLt(files[i].path, files[j].path) {
      assert PathLeq(files[i], files[j]);
      if files[i].path == files[j].path {
        assert files[i] in files && files[j] in files;
        TwiceCounted(files, i, j);
        DirOnce(limits, "", root, files[i]);
      }
    }
  }

  /** The fingerprint: an injective digest of the canonical JSON of the list. */
  datatype Fingerprint = OfManifest(files: seq<Hashed>)

  ghost predicate SameFiles(a: Node, b: Node) {
    forall path :: FileAt(a, path) == FileAt(b, path)
  }

  lemma HeadIsMember(s: seq<Hashed>)
    ensures s != [] ==> s[0] in s
  {}

  lemma {:induction false} PathSortedUnique(a: seq<Hashed>, b: seq<Hashed>)
    requires forall i, j :: 0 <= i < j < |a| ==> StrLt(a[i].path, a[j].path)
    requires forall i, j :: 0 <= i < j < |b| ==> StrLt(b[i].path, b[j].path)
    requires forall x :: x in a <==> x in b
    ensures a == b
  {
    HeadIsMember(a);
    HeadIsMember(b);
    if a != [] {
      assert a[0] in b && b[0] in a;
      StrTotal(a[0].path, b[0].path);
      var i :| 0 <= i < |b| && b[i] == a[0];
      var j :| 0 <= j < |a| && a[j] == b[0];
      assert a[0] == b[0];
      forall x ensures x in a[1..] <==> x in b[1..] {
        assert x in a[1..] <==> x in a && x != a[0];
        assert x in b[1..] <==> x in b && x != b[0];
      }
      PathSortedUnique(a[1..], b[1..]);
      assert a == [a[0]] + a[1..] && b == [b[0]] + b[1..];
    }
  }

  lemma ListedFilesAgree(a: Node, b: Node, files: seq<Hashed>, path: string)
    requires forall x :: x in files <==> IsFileAt("", a, x.path, x)
    requires forall x :: x in files <==> IsFileAt("", b, x.path, x)
    ensures FileAt(a, path) == FileAt(b, path)
  {
    hide FileAt;
    if FileAt(a, path).Some? {
      assert Hashed(path, Sha256(FileAt(a, path).value)) in files;
    }
    if FileAt(b, path).Some? {
      assert Hashed(path, Sha256(FileAt(b, path).value)) in files;
    }
  }

  /** Two trees get the same fingerprint exactly when every path names the same bytes
      in both: not names, not order, not links or directories without files, only the
      path-to-content map. */
  lemma FingerprintsAgreeIff(limits: Limits, limits': Limits, a: Node, b: Node, files: seq<Hashed>, files': seq<Hashed>)
    requires a.Dir? && b.Dir? && Valid(a) && Valid(b)
    requires IsManifest(limits, a, files) && IsManifest(limits', b, files')
    ensures OfManifest(files) == OfManifest(files') <==> SameFiles(a, b)
  {
    hide IsManifest;
    ManifestAscends(limits, a, files);
    ManifestAscends(limits', b, files');
    hide FileAt;
    if SameFiles(a, b) {
      PathSortedUnique(files, files');
    }
    if files == files' {
      forall path ensures FileAt(a, path) == FileAt(b, path) {
        ListedFilesAgree(a, b, files, path);
      }
    }
  }

  /** The local-directory resolver: a fingerprint exactly when the path is a directory
      whose flatten is within the limits. */
  method ResolveFingerprint(limits: Limits, root: Node, e: Enumeration, chunks: Chunks) returns (r: Option<Fingerprint>)
    requires Valid(root) && Enumerates(e) && forall k :: 1 <= chunks(k)
    ensures r.Some? <==> root.Dir? && Within(limits, DirCensus(limits, "", root))
    ensures r.Some? ==> IsManifest(limits, root, r.value.files)
  {
    if !root.Dir? {
      return None;
    }
    var files := BuildManifest(limits, root, e, chunks);
    r := if files.None? then None else Some(OfManifest(files.value));
  }
}
