/** When a tree can be fingerprinted, said over the paths that resolve in it. */
module ManifestCounts {
  import opened Common
  import opened Trees
  import opened Flattening
  import opened Manifest

  /** Nothing is stopped at. */
  function Nowhere(path: string): bool {
    false
  }

  /** A special file, a file over the bound, or a directory that cannot be read, holds a
      name that is not UTF-8 or lies too deep. */
  predicate Unfit(limits: Limits, x: Found) {
    match x.node
    case File(bytes) => |bytes| > limits.maxFileBytes
    case Dir(_, undecodable, readable) => !readable || undecodable > 0 || Segments(x.path) > 64
    case Link => false
    case Special => true
  }

  function IfDir(x: Found): nat {
    if x.node.Dir? then 1 else 0
  }

  function IfFile(x: Found): nat {
    if x.node.File? then 1 else 0
  }

  function EntriesIn(x: Found): nat {
    if x.node.Dir? then |x.node.entries| + x.node.undecodable else 0
  }

  function SizeOf(x: Found): nat {
    if x.node.File? then |x.node.bytes| else 0
  }

  /** What one found node adds to the census. */
  function Share(limits: Limits, x: Found): Census {
    match x.node
    case Dir(_, _, _) => OwnCensus(x.path, x.node)
    case _ => EntryCensus(limits, x.path, x.node)
  }

  function CensusOf(limits: Limits, xs: seq<Found>): Census {
    if xs == [] then ZERO else Add(Share(limits, xs[0]), CensusOf(limits, xs[1..]))
  }

  lemma {:induction false} CensusOfConcat(limits: Limits, a: seq<Found>, b: seq<Found>)
    ensures CensusOf(limits, a + b) == Add(CensusOf(limits, a), CensusOf(limits, b))
  {
    hide Share, Add;
    if a == [] {
      assert a + b == b;
      AddZero(CensusOf(limits, b));
    } else {
      CensusOfConcat(limits, a[1..], b);
      HeadOfConcat(a, b);
      AddAssociates(Share(limits, a[0]), CensusOf(limits, a[1..]), CensusOf(limits, b));
    }
  }

  lemma CensusOfOne(limits: Limits, x: Found)
    ensures CensusOf(limits, [x]) == Share(limits, x)
  {
    AddZero(Share(limits, x));
    assert [x][1..] == [];
  }

  /** The recursive census is the census of the list. */
  lemma {:induction false} DirIsFlattened(limits: Limits, rel: string, d: Node)
    requires d.Dir?
    ensures DirCensus(limits, rel, d) == CensusOf(limits, Flatten(Nowhere, rel, d))
    decreases d, 1
  {
    hide CensusOf, EntriesCensus, FlattenAll;
    EntriesAreFlattened(limits, rel, d.entries);
    CensusOfOne(limits, Found(rel, d));
    CensusOfConcat(limits, [Found(rel, d)], FlattenAll(Nowhere, rel, d.entries));
  }

  lemma {:induction false} EntriesAreFlattened(limits: Limits, rel: string, es: seq<Entry>)
    ensures EntriesCensus(limits, rel, es) == CensusOf(limits, FlattenAll(Nowhere, rel, es))
    decreases es, 0
  {
    if es != [] {
      var path, n := Join(rel, es[0].name), es[0].node;
      EntriesAreFlattened(limits, rel, es[1..]);
      EntryIsFlattened(limits, path, n);
      hide CensusOf, EntryCensus, Flatten, Join;
      CensusOfConcat(limits, Flatten(Nowhere, path, n), FlattenAll(Nowhere, rel, es[1..]));
    }
  }

  lemma {:induction false} EntryIsFlattened(limits: Limits, path: string, n: Node)
    ensures EntryCensus(limits, path, n) == CensusOf(limits, Flatten(Nowhere, path, n))
    decreases n, 2
  {
    hide CensusOf;
    if n.Dir? {
      DirIsFlattened(limits, path, n);
    } else {
      CensusOfOne(limits, Found(path, n));
      assert Flatten(Nowhere, path, n) == [Found(path, n)];
    }
  }

  lemma {:induction false} CensusCounts(limits: Limits, xs: seq<Found>)
    ensures var c := CensusOf(limits, xs);
            && c.dirs == SumOf(xs, IfDir) && |c.files| == SumOf(xs, IfFile)
            && c.entries == SumOf(xs, EntriesIn) && c.bytes == SumOf(xs, SizeOf)
            && (c.bad <==> exists x :: x in xs && Unfit(limits, x))
  {
    if xs != [] {
      CensusCounts(limits, xs[1..]);
      ShareCounts(limits, xs[0]);
      hide Share, Unfit, IfDir, IfFile, EntriesIn, SizeOf;
      var a, b := Share(limits, xs[0]), CensusOf(limits, xs[1..]);
      assert |a.files + b.files| == |a.files| + |b.files|;
      assert xs == [xs[0]] + xs[1..];
    }
  }

  lemma ShareCounts(limits: Limits, x: Found)
    ensures var c := Share(limits, x);
            && c.dirs == IfDir(x) && |c.files| == IfFile(x) && c.entries == EntriesIn(x) && c.bytes == SizeOf(x)
            && (c.bad <==> Unfit(limits, x))
  {}

  /** A tree is within the limits exactly when nothing that resolves in it is unfit, and
      the numbers of directories, entries and files and the bytes of all files, each path
      counted once, are within theirs. */
  lemma WithinIff(limits: Limits, root: Node)
    requires root.Dir?
    ensures var all := Flatten(Nowhere, "", root);
            Within(limits, DirCensus(limits, "", root)) <==>
              && (forall x :: x in all ==> !Unfit(limits, x))
              && SumOf(all, IfDir) <= limits.maxEntries
              && SumOf(all, EntriesIn) <= limits.maxEntries * 2
              && SumOf(all, IfFile) <= limits.maxEntries
              && SumOf(all, SizeOf) <= limits.maxBytes
  {
    hide Flatten, CensusOf, DirCensus, SumOf, Unfit;
    DirIsFlattened(limits, "", root);
    CensusCounts(limits, Flatten(Nowhere, "", root));
  }

  /** And these are exactly the root and the paths that resolve below it. */
  lemma CountedIffResolves(root: Node, x: Found)
    requires root.Dir? && Valid(root)
    ensures x in Flatten(Nowhere, "", root) <==> x == Found("", root) || NodeBelow(root, x.path) == Some(x.node)
  {
    FlattenIsExact(Nowhere, root, x);
    NothingStops("", x.path);
  }

  lemma {:induction false} NothingStops(rel: string, path: string)
    ensures Entered(Nowhere, rel, path)
    decreases |path|
  {
    var i := Slash(path);
    if i < |path| {
      NothingStops(Join(rel, path[..i]), path[i + 1..]);
    }
  }

  /** How deep a directory lies: the root and its own directories count one segment. */
  lemma SegmentsOfJoin(rel: string, name: string)
    requires '/' !in name
    ensures Segments("") == 1 && Segments(Join("", name)) == 1
    ensures rel != "" ==> Segments(Join(rel, name)) == Segments(rel) + 1
  {
    NameIsOneSegment(name);
    if rel != "" {
      SegmentsOfConcat(rel, "/" + name);
      assert ("/" + name)[1..] == name && rel + "/" + name == rel + ("/" + name);
    }
  }

  lemma {:induction false} NameIsOneSegment(name: string)
    requires '/' !in name
    ensures Segments(name) == 1
  {
    if name != "" {
      NameIsOneSegment(name[1..]);
    }
  }

  lemma {:induction false} SegmentsOfConcat(a: string, b: string)
    ensures Segments(a + b) == Segments(a) + Segments(b) - 1
  {
    if a == "" {
      assert a + b == b;
    } else {
      SegmentsOfConcat(a[1..], b);
      assert (a + b)[1..] == a[1..] + b;
    }
  }
}
