/** Which files a walk is meant to find, by resolving paths instead of walking. */
module ScanReach {
  import opened Common
  import opened Ordering
  import opened Trees
  import opened ScanWalk

  function Child(es: seq<Entry>, name: string): Option<Node> {
    if es == [] then None
    else if es[0].name == name then Some(es[0].node)
    else Child(es[1..], name)
  }

  /** The file that `path` names below directory `d`, following no link. */
  function FileAt(d: Node, path: string): Option<Bytes>
    decreases |path|
  {
    if !d.Dir? then None
    else
      var i := Slash(path);
      match Child(d.entries, path[..i])
      case None => None
      case Some(c) =>
        if i < |path| then FileAt(c, path[i + 1..])
        else if c.File? then Some(c.bytes)
        else None
  }

  /** No prefix of the path, itself included, is protected. */
  predicate Unprotected(protect: Protection, rel: string, path: string)
    decreases |path|
  {
    var i := Slash(path);
    && !protect(Join(rel, path[..i]))
    && (i < |path| ==> Unprotected(protect, Join(rel, path[..i]), path[i + 1..]))
  }

  /** `path` names a regular file reached without links or protected entries. */
  predicate Wanted(protect: Protection, rel: string, d: Node, path: string) {
    FileAt(d, path).Some? && Unprotected(protect, rel, path)
  }

  // ---- the walk finds exactly those ----

  lemma {:induction false} ChildOfEntry(d: Node, e: Entry)
    requires d.Dir? && Valid(d) && e in d.entries
    ensures Child(d.entries, e.name) == Some(e.node)
  {
    var i :| 0 <= i < |d.entries| && d.entries[i] == e;
    ChildAt(d.entries, i);
  }

  lemma {:induction false} ChildAt(es: seq<Entry>, i: nat)
    requires Ascending(Names(es)) && i < |es|
    ensures Child(es, es[i].name) == Some(es[i].node)
  {
    if i > 0 {
      assert Names(es)[0] == es[0].name && Names(es)[i] == es[i].name;
      assert forall j :: 0 <= j < |es[1..]| ==> Names(es[1..])[j] == Names(es)[j + 1];
      ChildAt(es[1..], i - 1);
    }
  }

  lemma {:induction false} ChildIsEntry(es: seq<Entry>, name: string)
    requires Child(es, name).Some?
    ensures Entry(name, Child(es, name).value) in es
  {
    if es[0].name != name {
      ChildIsEntry(es[1..], name);
    }
  }

  lemma {:induction false} EntriesPaths(protect: Protection, rel: string, es: seq<Entry>)
    ensures forall x :: x in EntriesTally(protect, rel, es).paths <==>
              exists e :: e in es && x in EntryTally(protect, Join(rel, e.name), e.node).paths
  {
    if es != [] {
      EntriesPaths(protect, rel, es[1..]);
      assert es == [es[0]] + es[1..];
      hide EntryTally;
      assert EntriesTally(protect, rel, es).paths ==
             EntryTally(protect, Join(rel, es[0].name), es[0].node).paths + EntriesTally(protect, rel, es[1..]).paths;
    }
  }

  lemma JoinNested(rel: string, name: string, path: string)
    requires name != ""
    ensures Join(Join(rel, name), path) == Join(rel, name + "/" + path)
  {
    if rel != "" {
      assert rel + "/" + name + "/" + path == rel + "/" + (name + "/" + path);
    }
  }

  lemma JoinInjective(rel: string, a: string, b: string)
    requires Join(rel, a) == Join(rel, b)
    ensures a == b
  {
    if rel != "" {
      assert (rel + "/" + a)[|rel| + 1..] == a && (rel + "/" + b)[|rel| + 1..] == b;
    }
  }

  /** What entry `e` contributes is wanted of its directory. */
  lemma {:induction false} FoundIsWanted(protect: Protection, rel: string, d: Node, x: string)
    requires d.Dir? && Valid(d) && x in DirTally(protect, rel, d).paths
    ensures exists path :: x == Join(rel, path) && Wanted(protect, rel, d, path)
    decreases d
  {
    EntriesPaths(protect, rel, d.entries);
    assert x in EntriesTally(protect, rel, d.entries).paths;
    hide EntriesTally, Wanted;
    var e :| e in d.entries && x in EntryTally(protect, Join(rel, e.name), e.node).paths;
    if e.node.File? {
      NamedIsWanted(protect, rel, d, e);
    } else {
      assert e.node < d;
      FoundIsWanted(protect, Join(rel, e.name), e.node, x);
      var rest :| x == Join(Join(rel, e.name), rest) && Wanted(protect, Join(rel, e.name), e.node, rest);
      NestedIsWanted(protect, rel, d, e, rest);
    }
  }

  lemma NamedIsWanted(protect: Protection, rel: string, d: Node, e: Entry)
    requires d.Dir? && Valid(d) && e in d.entries && !protect(Join(rel, e.name)) && e.node.File?
    ensures Wanted(protect, rel, d, e.name)
  {
    ChildOfEntry(d, e);
    SlashAfterName(e.name, "");
    assert e.name[..|e.name|] == e.name;
  }

  lemma NestedIsWanted(protect: Protection, rel: string, d: Node, e: Entry, rest: string)
    requires d.Dir? && Valid(d) && e in d.entries && !protect(Join(rel, e.name))
    requires Wanted(protect, Join(rel, e.name), e.node, rest)
    ensures Wanted(protect, rel, d, e.name + "/" + rest)
    ensures Join(Join(rel, e.name), rest) == Join(rel, e.name + "/" + rest)
  {
    var path := e.name + "/" + rest;
    ChildOfEntry(d, e);
    SlashAfterName(e.name, rest);
    JoinNested(rel, e.name, rest);
    assert path[..|e.name|] == e.name && path[|e.name| + 1..] == rest;
  }

  lemma {:induction false} WantedIsFound(protect: Protection, rel: string, d: Node, path: string)
    requires d.Dir? && Valid(d) && Wanted(protect, rel, d, path)
    ensures Join(rel, path) in DirTally(protect, rel, d).paths
    decreases |path|
  {
    var i := Slash(path);
    var name := path[..i];
    ChildIsEntry(d.entries, name);
    var e := Entry(name, Child(d.entries, name).value);
    EntriesPaths(protect, rel, d.entries);
    hide EntriesTally, Child;
    if i < |path| {
      var rest := path[i + 1..];
      assert path == name + "/" + rest;
      assert FileAt(e.node, rest).Some?;
      assert Valid(e.node);
      WantedIsFound(protect, Join(rel, name), e.node, rest);
      JoinNested(rel, name, rest);
      assert Join(rel, path) in EntryTally(protect, Join(rel, name), e.node).paths;
    } else {
      assert path == name;
      assert Join(rel, path) in EntryTally(protect, Join(rel, name), e.node).paths;
    }
  }

  /** A complete walk finds exactly the regular files that resolve from the root
      without links or protected entries. */
  lemma WalkFindsExactly(protect: Protection, root: Node, path: string)
    requires root.Dir? && Valid(root)
    ensures path in DirTally(protect, "", root).paths <==> Wanted(protect, "", root, path)
  {
    if path in DirTally(protect, "", root).paths {
      FoundIsWanted(protect, "", root, path);
    }
    if Wanted(protect, "", root, path) {
      WantedIsFound(protect, "", root, path);
    }
  }
}
