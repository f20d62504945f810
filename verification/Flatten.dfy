/** Everything a walk of a tree can come to, listed once and named by path. */
module Flattening {
  import opened Common
  import opened Ordering
  import opened Trees
  import opened ScanReach

  datatype Found = Found(path: string, node: Node)

  /** Paths that are not entered. */
  type Stop = string -> bool

  function Flatten(stop: Stop, path: string, n: Node): seq<Found>
    decreases n, 1
  {
    [Found(path, n)] + if n.Dir? && !stop(path) then FlattenAll(stop, path, n.entries) else []
  }

  function FlattenAll(stop: Stop, rel: string, es: seq<Entry>): seq<Found>
    decreases es, 0
  {
    if es == [] then []
    else Flatten(stop, Join(rel, es[0].name), es[0].node) + FlattenAll(stop, rel, es[1..])
  }

  // ---- by resolving paths instead ----

  /** What `path` names below directory `d`, following no link. */
  function NodeBelow(d: Node, path: string): Option<Node>
    decreases |path|
  {
    if !d.Dir? then None
    else
      var i := Slash(path);
      match Child(d.entries, path[..i])
      case None => None
      case Some(c) => if i < |path| then NodeBelow(c, path[i + 1..]) else Some(c)
  }

  /** No directory on the way to `path` is stopped at. */
  predicate Entered(stop: Stop, rel: string, path: string)
    decreases |path|
  {
    var i := Slash(path);
    i < |path| ==> !stop(Join(rel, path[..i])) && Entered(stop, Join(rel, path[..i]), path[i + 1..])
  }

  predicate Resolves(stop: Stop, rel: string, d: Node, path: string, n: Node) {
    NodeBelow(d, path) == Some(n) && Entered(stop, rel, path)
  }

  lemma {:induction false} AllMembers(stop: Stop, rel: string, es: seq<Entry>, x: Found)
    ensures x in FlattenAll(stop, rel, es) <==> exists e :: e in es && x in Flatten(stop, Join(rel, e.name), e.node)
  {
    if es != [] {
      AllMembers(stop, rel, es[1..], x);
      assert es == [es[0]] + es[1..];
      hide Flatten;
      assert FlattenAll(stop, rel, es) == Flatten(stop, Join(rel, es[0].name), es[0].node) + FlattenAll(stop, rel, es[1..]);
    }
  }

  lemma NamedResolves(stop: Stop, rel: string, d: Node, e: Entry)
    requires d.Dir? && Valid(d) && e in d.entries
    ensures Resolves(stop, rel, d, e.name, e.node)
  {
    ChildOfEntry(d, e);
    SlashAfterName(e.name, "");
    assert e.name[..|e.name|] == e.name;
  }

  lemma NestedResolves(stop: Stop, rel: string, d: Node, e: Entry, rest: string, n: Node)
    requires d.Dir? && Valid(d) && e in d.entries && !stop(Join(rel, e.name))
    requires Resolves(stop, Join(rel, e.name), e.node, rest, n)
    ensures Resolves(stop, rel, d, e.name + "/" + rest, n)
    ensures Join(Join(rel, e.name), rest) == Join(rel, e.name + "/" + rest)
  {
    var path := e.name + "/" + rest;
    ChildOfEntry(d, e);
    SlashAfterName(e.name, rest);
    JoinNested(rel, e.name, rest);
    assert path[..|e.name|] == e.name && path[|e.name| + 1..] == rest;
  }

  /** What is listed below a directory resolves, under the name of one of its entries. */
  lemma {:induction false} ListedResolves(stop: Stop, rel: string, d: Node, x: Found) returns (path: string)
    requires d.Dir? && Valid(d) && x in FlattenAll(stop, rel, d.entries)
    ensures x.path == Join(rel, path) && Resolves(stop, rel, d, path, x.node)
    decreases d
  {
    AllMembers(stop, rel, d.entries, x);
    var e :| e in d.entries && x in Flatten(stop, Join(rel, e.name), e.node);
    hide FlattenAll, Resolves;
    if x == Found(Join(rel, e.name), e.node) {
      path := e.name;
      NamedResolves(stop, rel, d, e);
    } else {
      assert e.node < d && Valid(e.node);
      var rest := ListedResolves(stop, Join(rel, e.name), e.node, x);
      path := e.name + "/" + rest;
      NestedResolves(stop, rel, d, e, rest, x.node);
    }
  }

  /** The first step of resolving a path. */
  lemma FirstStep(stop: Stop, rel: string, d: Node, path: string, n: Node)
    requires d.Dir? && Valid(d) && Resolves(stop, rel, d, path, n)
    ensures var i := Slash(path);
            && Child(d.entries, path[..i]).Some?
            && var c := Child(d.entries, path[..i]).value;
               && (i == |path| ==> c == n)
               && (i < |path| ==>
                     && !stop(Join(rel, path[..i])) && Resolves(stop, Join(rel, path[..i]), c, path[i + 1..], n)
                     && c.Dir?)
  {
    var i := Slash(path);
    var c := Child(d.entries, path[..i]).value;
    if i < |path| {
      assert NodeBelow(c, path[i + 1..]).Some?;
    }
  }

  lemma {:induction false} ResolvedIsListed(stop: Stop, rel: string, d: Node, path: string, n: Node)
    requires d.Dir? && Valid(d) && Resolves(stop, rel, d, path, n)
    ensures Found(Join(rel, path), n) in FlattenAll(stop, rel, d.entries)
    decreases |path|
  {
    hide FlattenAll, Child, Resolves;
    FirstStep(stop, rel, d, path, n);
    var i := Slash(path);
    var name, x := path[..i], Found(Join(rel, path), n);
    ChildIsEntry(d.entries, name);
    var e := Entry(name, Child(d.entries, name).value);
    AllMembers(stop, rel, d.entries, x);
    assert e in d.entries && Valid(e.node);
    if i < |path| {
      var rest := path[i + 1..];
      assert path == name + "/" + rest;
      ResolvedIsListed(stop, Join(rel, name), e.node, rest, n);
      JoinNested(rel, name, rest);
    } else {
      assert path == name;
    }
    assert x in Flatten(stop, Join(rel, e.name), e.node);
  }

  /** The list holds the root and exactly the paths that resolve without links and without
      passing a stop, each with the node it names. */
  lemma FlattenIsExact(stop: Stop, root: Node, x: Found)
    requires root.Dir? && Valid(root) && !stop("")
    ensures x in Flatten(stop, "", root) <==>
              x == Found("", root) || Resolves(stop, "", root, x.path, x.node)
  {
    if x in FlattenAll(stop, "", root.entries) {
      var path := ListedResolves(stop, "", root, x);
    }
    if Resolves(stop, "", root, x.path, x.node) {
      ResolvedIsListed(stop, "", root, x.path, x.node);
    }
  }

  // ---- each once ----

  /** What is listed for an entry lies at its name or below it. */
  lemma ListedUnder(stop: Stop, rel: string, e: Entry, x: Found) returns (path: string)
    requires NameOk(e.name) && Valid(e.node) && x in Flatten(stop, Join(rel, e.name), e.node)
    ensures x.path == Join(rel, path) && path != "" && path[..Slash(path)] == e.name
  {
    SlashAfterName(e.name, "");
    path := e.name;
    if x != Found(Join(rel, e.name), e.node) {
      var rest := ListedResolves(stop, Join(rel, e.name), e.node, x);
      path := e.name + "/" + rest;
      SlashAfterName(e.name, rest);
      JoinNested(rel, e.name, rest);
    }
  }

  lemma {:induction false} FlattenOnce(stop: Stop, path: string, n: Node, x: Found)
    requires Valid(n)
    ensures multiset(Flatten(stop, path, n))[x] <= 1
    decreases n, 1
  {
    hide FlattenAll;
    if n.Dir? && !stop(path) {
      FlattenAllOnce(stop, path, n.entries, x);
      if x == Found(path, n) {
        OwnPathIsNotBelow(stop, path, n, x);
      }
    }
  }

  lemma OwnPathIsNotBelow(stop: Stop, path: string, n: Node, x: Found)
    requires n.Dir? && Valid(n) && x.path == path
    ensures x !in FlattenAll(stop, path, n.entries)
  {
    AllMembers(stop, path, n.entries, x);
    hide FlattenAll, Flatten;
    forall e | e in n.entries ensures x !in Flatten(stop, Join(path, e.name), e.node) {
      JoinIsLonger(path);
      if x in Flatten(stop, Join(path, e.name), e.node) {
        var p := ListedUnder(stop, path, e, x);
      }
    }
  }

  lemma JoinIsLonger(rel: string)
    ensures forall p :: p != "" ==> Join(rel, p) != rel
  {}

  lemma {:induction false} FlattenAllOnce(stop: Stop, rel: string, es: seq<Entry>, x: Found)
    requires Ascending(Names(es)) && forall i :: 0 <= i < |es| ==> NameOk(es[i].name) && Valid(es[i].node)
    ensures multiset(FlattenAll(stop, rel, es))[x] <= 1
    decreases es, 0
  {
    hide Flatten;
    if es != [] {
      var e, rest := es[0], es[1..];
      assert forall j :: 0 <= j < |rest| ==> Names(rest)[j] == Names(es)[j + 1];
      FlattenAllOnce(stop, rel, rest, x);
      FlattenOnce(stop, Join(rel, e.name), e.node, x);
      if x in Flatten(stop, Join(rel, e.name), e.node) {
        NotInTheRest(stop, rel, es, x);
      }
    }
  }

  lemma NotInTheRest(stop: Stop, rel: string, es: seq<Entry>, x: Found)
    requires Ascending(Names(es)) && forall i :: 0 <= i < |es| ==> NameOk(es[i].name) && Valid(es[i].node)
    requires es != [] && x in Flatten(stop, Join(rel, es[0].name), es[0].node)
    ensures x !in FlattenAll(stop, rel, es[1..])
  {
    hide Flatten, FlattenAll;
    AllMembers(stop, rel, es[1..], x);
    forall f | f in es[1..] ensures x !in Flatten(stop, Join(rel, f.name), f.node) {
      var j :| 0 <= j < |es[1..]| && es[1..][j] == f;
      assert Names(es)[0] == es[0].name && Names(es)[j + 1] == f.name;
      TwoEntries(stop, rel, es[0], f, x);
    }
  }

  lemma TwoEntries(stop: Stop, rel: string, e: Entry, f: Entry, x: Found)
    requires NameOk(e.name) && Valid(e.node) && NameOk(f.name) && Valid(f.node) && e.name != f.name
    requires x in Flatten(stop, Join(rel, e.name), e.node)
    ensures x !in Flatten(stop, Join(rel, f.name), f.node)
  {
    hide Flatten;
    if x in Flatten(stop, Join(rel, f.name), f.node) {
      var p := ListedUnder(stop, rel, e, x);
      var q := ListedUnder(stop, rel, f, x);
      JoinInjective(rel, p, q);
    }
  }

  /** No path is listed twice. */
  lemma FlattenIsDistinct(stop: Stop, root: Node, i: nat, j: nat)
    requires root.Dir? && Valid(root) && !stop("") && i < j < |Flatten(stop, "", root)|
    ensures Flatten(stop, "", root)[i].path != Flatten(stop, "", root)[j].path
  {
    hide Flatten, Valid;
    var s := Flatten(stop, "", root);
    if s[i].path == s[j].path {
      FlattenIsExact(stop, root, s[i]);
      FlattenIsExact(stop, root, s[j]);
      RootHasNoOtherPath(root);
      TwiceCounted(s, i, j);
      FlattenOnce(stop, "", root, s[i]);
    }
  }

  lemma RootHasNoOtherPath(root: Node)
    requires root.Dir? && Valid(root)
    ensures NodeBelow(root, "").None?
  {
    if Child(root.entries, "").Some? {
      ChildIsEntry(root.entries, "");
    }
  }

  // ---- sums over what is found ----

  function SumOf(xs: seq<Found>, f: Found -> nat): nat {
    if xs == [] then 0 else f(xs[0]) + SumOf(xs[1..], f)
  }

  lemma {:induction false} SumOfConcat(a: seq<Found>, b: seq<Found>, f: Found -> nat)
    ensures SumOf(a + b, f) == SumOf(a, f) + SumOf(b, f)
  {
    if a == [] {
      assert a + b == b;
    } else {
      SumOfConcat(a[1..], b, f);
      assert (a + b)[1..] == a[1..] + b && (a + b)[0] == a[0];
    }
  }
}
