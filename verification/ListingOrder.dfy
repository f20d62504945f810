/** Exactly when the order in which a directory is listed can be noticed. */
module ListingOrder {
  import opened Common
  import opened Ordering
  import opened Trees

  ghost predicate ListingOf(d: Node, listing: seq<Listed>)
    requires d.Dir?
  {
    multiset(listing) == multiset(AllListed(d))
  }

  /** All listings of `d` read the same within `room`. */
  ghost predicate OrderFree(d: Node, room: nat)
    requires d.Dir?
  {
    forall a, b :: ListingOf(d, a) && ListingOf(d, b) ==> ReadOutcome(a, room) == ReadOutcome(b, room)
  }

  /** Sorting makes a directory's listing order irrelevant exactly when the budget covers
      all of it or nothing of it, or must run into a name that is not UTF-8. */
  lemma OrderFreeIff(d: Node, room: nat)
    requires d.Dir? && Valid(d)
    ensures OrderFree(d, room) <==> room == 0 || |d.entries| < room || Listings(d) <= room
  {
    hide ReadOutcome, ListingOf, Valid;
    if room == 0 || |d.entries| < room || Listings(d) <= room {
      forall a, b | ListingOf(d, a) && ListingOf(d, b) ensures ReadOutcome(a, room) == ReadOutcome(b, room) {
        SameOutcome(d, a, b, room);
      }
    } else if d.undecodable > 0 {
      UndecodableShows(d, room);
    } else {
      CutDrops(d, room);
    }
  }

  lemma SameOutcome(d: Node, a: seq<Listed>, b: seq<Listed>, room: nat)
    requires d.Dir? && Valid(d) && ListingOf(d, a) && ListingOf(d, b)
    requires room == 0 || |d.entries| < room || Listings(d) <= room
    ensures ReadOutcome(a, room) == ReadOutcome(b, room)
  {
    hide MapOf, AllListed, Valid;
    if room == 0 {
      assert Cut(a, 0) == [] == Cut(b, 0);
    } else if Listings(d) <= room {
      WholeListing(d, a, room);
      WholeListing(d, b, room);
      SameMap(d, a, b);
      ListingMember(d, a, Undecodable);
      ListingMember(d, b, Undecodable);
    } else {
      UndecodableIsRead(d, a, room);
      UndecodableIsRead(d, b, room);
    }
  }

  lemma WholeListing(d: Node, a: seq<Listed>, room: nat)
    requires d.Dir? && ListingOf(d, a) && Listings(d) <= room
    ensures Cut(a, room) == a
  {
    assert |multiset(a)| == |multiset(AllListed(d))|;
  }

  lemma SameMap(d: Node, a: seq<Listed>, b: seq<Listed>)
    requires d.Dir? && Valid(d) && ListingOf(d, a) && ListingOf(d, b)
    ensures MapOf(a) == MapOf(b)
  {
    ListingSorts(d, a);
    ListingSorts(d, b);
    var names := Names(d.entries);
    assert MapOf(a).Keys == Elements(names) == MapOf(b).Keys;
    forall n | n in MapOf(a) ensures MapOf(a)[n] == MapOf(b)[n] {
      assert n in Elements(names);
      var i :| 0 <= i < |names| && names[i] == n;
      assert d.entries[i].name == n;
    }
  }

  // ---- names that are not UTF-8 ----

  lemma {:induction false} CountAtMost(s: seq<Listed>, x: Listed)
    ensures multiset(s)[x] <= |s|
  {
    if s != [] {
      CountAtMost(s[1..], x);
      assert s == [s[0]] + s[1..];
    }
  }

  lemma {:induction false} CountOfSame(s: seq<Listed>, x: Listed)
    requires forall i :: 0 <= i < |s| ==> s[i] == x
    ensures multiset(s)[x] == |s|
  {
    if s != [] {
      CountOfSame(s[1..], x);
      assert s == [s[0]] + s[1..];
    }
  }

  lemma UndecodableCount(d: Node)
    requires d.Dir?
    ensures multiset(AllListed(d))[Undecodable] == d.undecodable
  {
    var s, n := AllListed(d), |d.entries|;
    assert s == s[..n] + s[n..];
    assert Undecodable !in s[..n];
    CountOfSame(s[n..], Undecodable);
  }

  /** More room than there are names reaches an undecodable one, if there is any left. */
  lemma UndecodableIsRead(d: Node, listing: seq<Listed>, room: nat)
    requires d.Dir? && ListingOf(d, listing) && |d.entries| < room < Listings(d)
    ensures Undecodable in Cut(listing, room)
  {
    UndecodableCount(d);
    hide AllListed;
    assert |multiset(listing)| == |multiset(AllListed(d))|;
    var cut, left := listing[..room], listing[room..];
    assert listing == cut + left;
    CountAtMost(left, Undecodable);
    assert Undecodable !in cut ==> multiset(cut)[Undecodable] == 0;
  }

  lemma UndecodableShows(d: Node, room: nat)
    requires d.Dir? && d.undecodable > 0 && 0 < room <= |d.entries|
    ensures !OrderFree(d, room)
  {
    var a, n := AllListed(d), Listings(d) - 1;
    var b := [a[n]] + a[..n];
    assert a[n] == Undecodable && Undecodable !in Cut(a, room) && Cut(b, room)[0] == Undecodable;
    LastMovedFirst(a, n);
    assert ListingOf(d, a) && ListingOf(d, b);
    hide AllListed, MapOf, ListingOf;
    assert ReadOutcome(a, room).Some? && ReadOutcome(b, room).None?;
  }

  // ---- names that fall off the end ----

  /** The last entry is read when it is listed first and dropped when it is listed last. */
  lemma CutDrops(d: Node, room: nat)
    requires d.Dir? && Valid(d) && d.undecodable == 0 && 0 < room < |d.entries|
    ensures !OrderFree(d, room)
  {
    hide MapOf, Cut, AllListed, Valid, ListingOf, OrderFree;
    var a, b, name := CutDiffers(d, room);
    Distinguished(d, room, a, b, name);
  }

  lemma Distinguished(d: Node, room: nat, a: seq<Listed>, b: seq<Listed>, name: string)
    requires d.Dir? && ListingOf(d, a) && ListingOf(d, b)
    requires Undecodable !in Cut(a, room) && Undecodable !in Cut(b, room)
    requires name !in MapOf(Cut(a, room)) && name in MapOf(Cut(b, room))
    ensures !OrderFree(d, room)
  {
    hide MapOf, Cut, ListingOf;
    assert ReadOutcome(a, room) != ReadOutcome(b, room);
  }

  /** Two listings of one directory, and a name that only the second one's reader sees. */
  lemma CutDiffers(d: Node, room: nat) returns (a: seq<Listed>, b: seq<Listed>, name: string)
    requires d.Dir? && Valid(d) && d.undecodable == 0 && 0 < room < |d.entries|
    ensures ListingOf(d, a) && ListingOf(d, b)
    ensures Undecodable !in Cut(a, room) && Undecodable !in Cut(b, room)
    ensures name !in MapOf(Cut(a, room)) && name in MapOf(Cut(b, room))
  {
    var n := |d.entries| - 1;
    a := AllListed(d);
    b := [a[n]] + a[..n];
    name := d.entries[n].name;
    assert a[n] == Named(name, d.entries[n].node);
    UndecodableListed(d);
    assert Undecodable !in a && Undecodable !in b;
    hide MapOf, AllListed, Valid;
    LastMovedFirst(a, n);
    FirstIsRead(d, b, room);
    LastIsDropped(d, room);
  }

  lemma LastMovedFirst(a: seq<Listed>, n: nat)
    requires |a| == n + 1
    ensures multiset([a[n]] + a[..n]) == multiset(a)
  {
    assert a == a[..n] + [a[n]];
  }

  lemma FirstIsRead(d: Node, b: seq<Listed>, room: nat)
    requires d.Dir? && Valid(d) && ListingOf(d, b) && b != [] && b[0].Named? && room > 0
    ensures b[0].name in MapOf(Cut(b, room))
  {
    CutIsDistinct(d, b, room);
    MapOfHolds(Cut(b, room));
    hide MapOf, AllListed, Valid;
    assert Cut(b, room)[0] == Named(b[0].name, b[0].node);
  }

  lemma LastIsDropped(d: Node, room: nat)
    requires d.Dir? && Valid(d) && d.undecodable == 0 && room < |d.entries|
    ensures d.entries[|d.entries| - 1].name !in MapOf(Cut(AllListed(d), room))
  {
    var a, n := AllListed(d), |d.entries| - 1;
    CutIsDistinct(d, a, room);
    MapOfHolds(Cut(a, room));
    hide MapOf;
    forall x ensures Named(d.entries[n].name, x) !in Cut(a, room) {
      forall i | 0 <= i < room ensures a[i] != Named(d.entries[n].name, x) {
        assert Names(d.entries)[i] != Names(d.entries)[n];
      }
    }
  }

  lemma CutIsDistinct(d: Node, listing: seq<Listed>, room: nat)
    requires d.Dir? && Valid(d) && ListingOf(d, listing)
    ensures forall a, b :: a in Cut(listing, room) && b in Cut(listing, room) && a.Named? && b.Named? && a.name == b.name
              ==> a == b
  {
    forall a, b | a in Cut(listing, room) && b in Cut(listing, room) && a.Named? && b.Named? && a.name == b.name
      ensures a == b
    {
      assert a in listing && b in listing;
      ListingMember(d, listing, a);
      ListingMember(d, listing, b);
      NamedListed(d, a.name, a.node);
      NamedListed(d, b.name, b.node);
      EntriesUnique(d, Entry(a.name, a.node), Entry(b.name, b.node));
    }
  }

  // ---- a whole walk ----

  /** The files that a walk collects from a flat root, with room for `max` entries. */
  ghost function FlatFiles(root: Node, e: Enumeration, max: nat): seq<string> {
    InOrder(MapOf(Cut(e("", root), max)).Keys)
  }

  /** Enumerate one directory as given, and every other in the order of the tree. */
  function Listing(root: Node, listing: seq<Listed>): Enumeration {
    (rel: string, d: Node) => if d == root then listing else if d.Dir? then AllListed(d) else []
  }

  /** The files collected from a flat root are the same for all enumerations exactly when
      the entry ceiling covers them. */
  lemma FlatOrderFreeIff(root: Node, max: nat)
    requires root.Dir? && Valid(root) && root.undecodable == 0 && max > 0
    ensures (forall e, e' :: Enumerates(e) && Enumerates(e') ==> FlatFiles(root, e, max) == FlatFiles(root, e', max))
            <==> |root.entries| <= max
  {
    if |root.entries| <= max {
      forall e, e' | Enumerates(e) && Enumerates(e') ensures FlatFiles(root, e, max) == FlatFiles(root, e', max) {
        var a, b := e("", root), e'("", root);
        hide MapOf, AllListed, InOrder, Valid;
        WholeListing(root, a, max);
        WholeListing(root, b, max);
        SameMap(root, a, b);
      }
    } else {
      FlatOrderShows(root, max);
    }
  }

  lemma FlatOrderShows(root: Node, max: nat)
    requires root.Dir? && Valid(root) && root.undecodable == 0 && 0 < max < |root.entries|
    ensures exists e, e' :: Enumerates(e) && Enumerates(e') && FlatFiles(root, e, max) != FlatFiles(root, e', max)
  {
    hide MapOf, Cut, AllListed, InOrder, Valid;
    var a, b, name := CutDiffers(root, max);
    var e, e' := Listing(root, a), Listing(root, b);
    assert Enumerates(e) && Enumerates(e');
    var x, y := FlatFiles(root, e, max), FlatFiles(root, e', max);
    assert name !in Elements(x) && name in Elements(y);
  }
}
