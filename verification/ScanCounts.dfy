/** What a complete walk counts, said over the paths that it can come to. */
module ScanCounts {
  import opened Common
  import opened Trees
  import opened ScanWalk
  import opened Flattening

  /** A protected path is not entered; the root always is. */
  function Stopped(protect: Protection): Stop {
    path => path != "" && protect(path)
  }

  predicate Guarded(protect: Protection, x: Found) {
    x.path != "" && protect(x.path)
  }

  /** Entries charged: all of an open directory, those of a protected one up to 1024. */
  function Charged(protect: Protection, x: Found): nat {
    if !x.node.Dir? then 0
    else if Guarded(protect, x) then Min(Listings(x.node), 1024)
    else Listings(x.node)
  }

  /** Protected entries counted: those of a protected directory up to 1024, or one. */
  function Withheld(protect: Protection, x: Found): nat {
    if !Guarded(protect, x) then 0
    else if x.node.Dir? then Min(Listings(x.node), 1024)
    else 1
  }

  predicate TooMany(protect: Protection, x: Found) {
    Guarded(protect, x) && x.node.Dir? && Listings(x.node) > 1024
  }

  /** A directory that cannot be read, or an open one with a name that is not UTF-8. */
  predicate Failing(protect: Protection, x: Found) {
    x.node.Dir? && (!x.node.readable || (!Guarded(protect, x) && x.node.undecodable > 0))
  }

  function Share(protect: Protection, x: Found): Tally {
    if Guarded(protect, x) then ProtectedTally(x.node)
    else match x.node
         case File(_) => Tally({x.path}, 0, 0, false, false)
         case Dir(_, _, _) => OwnTally(x.node)
         case _ => ZERO
  }

  function TallyOf(protect: Protection, xs: seq<Found>): Tally {
    if xs == [] then ZERO else Add(Share(protect, xs[0]), TallyOf(protect, xs[1..]))
  }

  lemma {:induction false} TallyOfConcat(protect: Protection, a: seq<Found>, b: seq<Found>)
    ensures TallyOf(protect, a + b) == Add(TallyOf(protect, a), TallyOf(protect, b))
  {
    hide Share, Add;
    if a == [] {
      assert a + b == b;
      AddZero(TallyOf(protect, b));
    } else {
      TallyOfConcat(protect, a[1..], b);
      HeadOfConcat(a, b);
      AddAssociates(Share(protect, a[0]), TallyOf(protect, a[1..]), TallyOf(protect, b));
    }
  }

  lemma TallyOfOne(protect: Protection, x: Found)
    ensures TallyOf(protect, [x]) == Share(protect, x)
  {
    AddZero(Share(protect, x));
    assert [x][1..] == [];
  }

  lemma {:induction false} DirIsFlattened(protect: Protection, rel: string, d: Node)
    requires d.Dir? && Trees.Valid(d) && !Stopped(protect)(rel)
    ensures DirTally(protect, rel, d) == TallyOf(protect, Flatten(Stopped(protect), rel, d))
    decreases d, 1
  {
    hide TallyOf, EntriesTally, FlattenAll;
    EntriesAreFlattened(protect, rel, d.entries);
    TallyOfOne(protect, Found(rel, d));
    TallyOfConcat(protect, [Found(rel, d)], FlattenAll(Stopped(protect), rel, d.entries));
  }

  lemma {:induction false} EntriesAreFlattened(protect: Protection, rel: string, es: seq<Entry>)
    requires forall i :: 0 <= i < |es| ==> es[i].name != "" && Trees.Valid(es[i].node)
    ensures EntriesTally(protect, rel, es) == TallyOf(protect, FlattenAll(Stopped(protect), rel, es))
    decreases es, 0
  {
    if es != [] {
      var path, n := Join(rel, es[0].name), es[0].node;
      EntriesAreFlattened(protect, rel, es[1..]);
      EntryIsFlattened(protect, path, n);
      hide TallyOf, EntryTally, Flatten, Join;
      TallyOfConcat(protect, Flatten(Stopped(protect), path, n), FlattenAll(Stopped(protect), rel, es[1..]));
    }
  }

  lemma {:induction false} EntryIsFlattened(protect: Protection, path: string, n: Node)
    requires path != "" && Trees.Valid(n)
    ensures EntryTally(protect, path, n) == TallyOf(protect, Flatten(Stopped(protect), path, n))
    decreases n, 2
  {
    hide TallyOf;
    if n.Dir? && !protect(path) {
      DirIsFlattened(protect, path, n);
    } else {
      TallyOfOne(protect, Found(path, n));
      assert Flatten(Stopped(protect), path, n) == [Found(path, n)];
    }
  }

  lemma ShareCounts(protect: Protection, x: Found)
    ensures var t := Share(protect, x);
            && t.visited == Charged(protect, x) && t.protected == Withheld(protect, x)
            && (t.overflow <==> TooMany(protect, x)) && (t.bad <==> Failing(protect, x))
            && t.paths == if x.node.File? && !Guarded(protect, x) then {x.path} else {}
  {}

  lemma {:induction false} TallyCounts(protect: Protection, xs: seq<Found>)
    ensures var t := TallyOf(protect, xs);
            && t.visited == SumOf(xs, x => Charged(protect, x))
            && t.protected == SumOf(xs, x => Withheld(protect, x))
            && (t.overflow <==> exists x :: x in xs && TooMany(protect, x))
            && (t.bad <==> exists x :: x in xs && Failing(protect, x))
            && (forall p :: p in t.paths <==> exists x :: x in xs && x.path == p && x.node.File? && !Guarded(protect, x))
  {
    if xs != [] {
      TallyCounts(protect, xs[1..]);
      ShareCounts(protect, xs[0]);
      hide Share, TooMany, Failing, Charged, Withheld, Guarded;
      assert xs == [xs[0]] + xs[1..];
    }
  }

  /** What a complete walk reports, over the paths that resolve without links and without
      entering a protected directory, each once: the entries it is charged, the protected
      entries it counts, whether a protected directory was too large to count, whether
      the walk must fail, and the files. */
  lemma WalkCounts(protect: Protection, root: Node)
    requires root.Dir? && Trees.Valid(root)
    ensures var t, all := DirTally(protect, "", root), Flatten(Stopped(protect), "", root);
            && t.visited == SumOf(all, x => Charged(protect, x))
            && t.protected == SumOf(all, x => Withheld(protect, x))
            && (t.overflow <==> exists x :: x in all && TooMany(protect, x))
            && (t.bad <==> exists x :: x in all && Failing(protect, x))
            && (forall p :: p in t.paths <==> exists x :: x in all && x.path == p && x.node.File? && !Guarded(protect, x))
  {
    hide Flatten, TallyOf, DirTally, SumOf, TooMany, Failing, Guarded;
    DirIsFlattened(protect, "", root);
    TallyCounts(protect, Flatten(Stopped(protect), "", root));
  }
}
