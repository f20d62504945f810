/** A directory tree at rest, and the listings a walk is handed for its directories. */
module Trees {
  import opened Common
  import opened Ordering

  /** `undecodable` counts entries whose names are not UTF-8. */
  datatype Node =
    | File(bytes: Bytes)
    | Dir(entries: seq<Entry>, undecodable: nat, readable: bool)
    | Link
    | Special

  datatype Entry = Entry(name: string, node: Node)

  predicate NameOk(name: string) {
    name != "" && name != "." && name != ".." && '/' !in name
  }

  function Names(es: seq<Entry>): seq<string> {
    seq(|es|, i requires 0 <= i < |es| => es[i].name)
  }

  /** Names are unique in each directory; `entries` lists them ascending. */
  ghost predicate Valid(n: Node) {
    n.Dir? ==>
      && Ascending(Names(n.entries))
      && forall i :: 0 <= i < |n.entries| ==> NameOk(n.entries[i].name) && Valid(n.entries[i].node)
  }

  function Join(parent: string, name: string): string {
    if parent == "" then name else parent + "/" + name
  }

  function Listings(d: Node): nat
    requires d.Dir?
  {
    |d.entries| + d.undecodable
  }

  /** One item of a directory listing. */
  datatype Listed = Named(name: string, node: Node) | Undecodable

  function AllListed(d: Node): (s: seq<Listed>)
    requires d.Dir?
    ensures |s| == Listings(d)
  {
    seq(|d.entries|, i requires 0 <= i < |d.entries| => Named(d.entries[i].name, d.entries[i].node))
    + seq(d.undecodable, i => Undecodable)
  }

  /** How directories are enumerated: every listing is complete, in an order of its own. */
  type Enumeration = (string, Node) -> seq<Listed>

  ghost predicate Enumerates(e: Enumeration) {
    forall rel: string, d: Node :: d.Dir? ==> multiset(e(rel, d)) == multiset(AllListed(d))
  }

  /** A `BTreeMap` filled from a listing; the first entry of a name stays. */
  function MapOf(listing: seq<Listed>): map<string, Node> {
    if listing == [] then map[]
    else
      var m, last := MapOf(listing[..|listing| - 1]), listing[|listing| - 1];
      if last.Named? && last.name !in m then m[last.name := last.node] else m
  }

  lemma {:induction false} MapOfHolds(listing: seq<Listed>)
    requires forall a, b :: a in listing && b in listing && a.Named? && b.Named? && a.name == b.name ==> a == b
    ensures forall n :: n in MapOf(listing) <==> exists x :: Named(n, x) in listing
    ensures forall n :: n in MapOf(listing) ==> Named(n, MapOf(listing)[n]) in listing
  {
    if listing != [] {
      var front, last := listing[..|listing| - 1], listing[|listing| - 1];
      assert listing == front + [last];
      MapOfHolds(front);
      if last.Named? {
        assert Named(last.name, last.node) in listing;
      }
    }
  }

  lemma ListingMember(d: Node, listing: seq<Listed>, item: Listed)
    requires d.Dir? && multiset(listing) == multiset(AllListed(d))
    ensures item in listing <==> item in AllListed(d)
    ensures |listing| == Listings(d)
  {
    assert item in listing <==> item in multiset(listing);
    assert item in AllListed(d) <==> item in multiset(AllListed(d));
    assert |multiset(listing)| == |multiset(AllListed(d))|;
  }

  lemma NamedListed(d: Node, name: string, node: Node)
    requires d.Dir?
    ensures Named(name, node) in AllListed(d) <==> Entry(name, node) in d.entries
  {
    var s := AllListed(d);
    if Entry(name, node) in d.entries {
      var i :| 0 <= i < |d.entries| && d.entries[i] == Entry(name, node);
      assert s[i] == Named(name, node);
    }
    if Named(name, node) in s {
      var i :| 0 <= i < |s| && s[i] == Named(name, node);
      assert i < |d.entries|;
      assert d.entries[i] == Entry(name, node);
    }
  }

  lemma UndecodableListed(d: Node)
    requires d.Dir?
    ensures Undecodable in AllListed(d) <==> d.undecodable > 0
  {
    if d.undecodable > 0 {
      assert AllListed(d)[|d.entries|] == Undecodable;
    }
  }

  lemma EntriesUnique(d: Node, a: Entry, b: Entry)
    requires d.Dir? && Valid(d) && a in d.entries && b in d.entries && a.name == b.name
    ensures a == b
  {
    var i :| 0 <= i < |d.entries| && d.entries[i] == a;
    var j :| 0 <= j < |d.entries| && d.entries[j] == b;
    var names := Names(d.entries);
    assert names[i] == a.name && names[j] == b.name;
  }

  /** Whatever order a directory is listed in, the map built from the listing iterates
      over the directory's entries in name order. */
  lemma ListingSorts(d: Node, listing: seq<Listed>)
    requires d.Dir? && Valid(d) && multiset(listing) == multiset(AllListed(d))
    ensures InOrder(MapOf(listing).Keys) == Names(d.entries)
    ensures forall i :: 0 <= i < |d.entries| ==>
              d.entries[i].name in MapOf(listing) && MapOf(listing)[d.entries[i].name] == d.entries[i].node
  {
    forall a, b | a in listing && b in listing && a.Named? && b.Named? && a.name == b.name ensures a == b {
      ListingMember(d, listing, a);
      ListingMember(d, listing, b);
      NamedListed(d, a.name, a.node);
      NamedListed(d, b.name, b.node);
      EntriesUnique(d, Entry(a.name, a.node), Entry(b.name, b.node));
    }
    MapOfHolds(listing);
    var m, names := MapOf(listing), Names(d.entries);
    forall i | 0 <= i < |d.entries| ensures d.entries[i].name in m && m[d.entries[i].name] == d.entries[i].node {
      var it := d.entries[i];
      NamedListed(d, it.name, it.node);
      ListingMember(d, listing, Named(it.name, it.node));
      assert Named(it.name, it.node) in listing;
    }
    forall n ensures n in m.Keys <==> n in Elements(names) {
      if n in m {
        ListingMember(d, listing, Named(n, m[n]));
        NamedListed(d, n, m[n]);
        var i :| 0 <= i < |d.entries| && d.entries[i] == Entry(n, m[n]);
        assert names[i] == n;
      }
      if n in names {
        var i :| 0 <= i < |names| && names[i] == n;
        assert d.entries[i].name == n;
      }
    }
    AscendingUnique(InOrder(m.Keys), names);
  }

  // ---- a listing cut short ----

  /** What is read of a listing when only `room` more entries may be examined. */
  function Cut(listing: seq<Listed>, room: nat): seq<Listed> {
    listing[..Min(room, |listing|)]
  }

  /** The map read from a listing within `room`; a name that is not UTF-8 fails the read. */
  function ReadOutcome(listing: seq<Listed>, room: nat): Option<map<string, Node>> {
    if Undecodable in Cut(listing, room) then None else Some(MapOf(Cut(listing, room)))
  }
}
