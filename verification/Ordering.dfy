/** The order of names (Rust compares strings by bytes, which on valid UTF-8 is the
    order of code points), ordered sets of names, and sorting by a total order. */
module Ordering {

  predicate StrLeq(a: string, b: string) {
    a == [] || (b != [] && (a[0] < b[0] || (a[0] == b[0] && StrLeq(a[1..], b[1..]))))
  }

  predicate StrLt(a: string, b: string) {
    StrLeq(a, b) && a != b
  }

  lemma StrTotal(a: string, b: string)
    ensures StrLeq(a, b) || StrLeq(b, a)
    ensures StrLeq(a, b) && StrLeq(b, a) ==> a == b
  {
    if a != [] && b != [] && a[0] == b[0] {
      StrTotal(a[1..], b[1..]);
      assert a == [a[0]] + a[1..] && b == [b[0]] + b[1..];
    }
  }

  lemma StrReflexive(a: string)
    ensures StrLeq(a, a)
  {}

  lemma StrTransitive(a: string, b: string, c: string)
    requires StrLeq(a, b) && StrLeq(b, c)
    ensures StrLeq(a, c)
  {
    if a != [] && a[0] == b[0] == c[0] {
      StrTransitive(a[1..], b[1..], c[1..]);
    }
  }

  lemma StrLtTransitive(a: string, b: string, c: string)
    requires StrLt(a, b) && StrLt(b, c)
    ensures StrLt(a, c)
  {
    StrTransitive(a, b, c);
    StrTotal(a, b);
  }

  // ---- ordered sets of names ----

  ghost predicate Ascending(s: seq<string>) {
    forall i, j :: 0 <= i < j < |s| ==> StrLt(s[i], s[j])
  }

  function Elements<T>(s: seq<T>): set<T> {
    set x | x in s
  }

  /** Insertion into a `BTreeSet`, seen as its iteration order. */
  function InsertName(x: string, s: seq<string>): (r: seq<string>)
    requires Ascending(s)
    ensures Ascending(r)
    ensures Elements(r) == Elements(s) + {x}
  {
    if s == [] then [x]
    else if x == s[0] then s
    else if StrLeq(x, s[0]) then
      InsertBelow(x, s);
      [x] + s
    else
      StrTotal(x, s[0]);
      var t := InsertName(x, s[1..]);
      InsertAbove(x, s, t);
      [s[0]] + t
  }

  lemma InsertAbove(x: string, s: seq<string>, t: seq<string>)
    requires s != [] && Ascending(s) && StrLt(s[0], x)
    requires Ascending(t) && Elements(t) == Elements(s[1..]) + {x}
    ensures Ascending([s[0]] + t)
    ensures Elements([s[0]] + t) == Elements(s) + {x}
  {
    assert s == [s[0]] + s[1..];
    forall i | 0 <= i < |t| ensures StrLt(s[0], t[i]) {
      assert t[i] in Elements(s[1..]) + {x};
    }
    forall y ensures y in [s[0]] + t <==> y in Elements(s) + {x} {
      assert y in t <==> y in Elements(s[1..]) + {x};
    }
  }

  lemma InsertBelow(x: string, s: seq<string>)
    requires s != [] && Ascending(s) && StrLt(x, s[0])
    ensures Ascending([x] + s)
  {
    forall i | 0 < i < |s| ensures StrLt(x, s[i]) {
      StrLtTransitive(x, s[0], s[i]);
    }
  }

  /** What iterating a `BTreeSet` of these names yields; also `sort` then `dedup`. */
  function SortDedup(s: seq<string>): (r: seq<string>)
    ensures Ascending(r)
    ensures Elements(r) == Elements(s)
  {
    if s == [] then []
    else
      assert s == [s[0]] + s[1..];
      InsertName(s[0], SortDedup(s[1..]))
  }

  lemma HeadIsElement<T>(s: seq<T>)
    ensures s != [] ==> s[0] in Elements(s)
  {}

  /** A strictly ascending sequence is determined by its elements. */
  lemma {:induction false} AscendingUnique(a: seq<string>, b: seq<string>)
    requires Ascending(a) && Ascending(b)
    requires Elements(a) == Elements(b)
    ensures a == b
  {
    HeadIsElement(a);
    HeadIsElement(b);
    if a != [] {
      assert a[0] in Elements(b) && b[0] in Elements(a);
      StrTotal(a[0], b[0]);
      assert a[0] == b[0];
      forall x ensures x in Elements(a[1..]) <==> x in Elements(b[1..]) {
        assert x in Elements(a[1..]) <==> x in Elements(a) && x != a[0];
        assert x in Elements(b[1..]) <==> x in Elements(b) && x != b[0];
      }
      AscendingUnique(a[1..], b[1..]);
      assert a == [a[0]] + a[1..] && b == [b[0]] + b[1..];
    }
  }

  /** The names of a set, ascending: the iteration order of a `BTreeSet`. */
  ghost function InOrder(names: set<string>): (r: seq<string>)
    ensures Ascending(r) && Elements(r) == names
  {
    if names == {} then []
    else
      var x :| x in names;
      InsertName(x, InOrder(names - {x}))
  }

  method ListInOrder(names: set<string>) returns (r: seq<string>)
    ensures r == InOrder(names)
  {
    r := [];
    var rest := names;
    while rest != {}
      invariant rest <= names && Ascending(r) && Elements(r) == names - rest
    {
      var x :| x in rest;
      r := InsertName(x, r);
      rest := rest - {x};
    }
    AscendingUnique(r, InOrder(names));
  }

  // ---- ranking: higher score first, then lower name ----

  datatype Scored = Scored(id: string, score: int)

  predicate RankLeq(a: Scored, b: Scored) {
    a.score > b.score || (a.score == b.score && StrLeq(a.id, b.id))
  }

  lemma RankIsTotal()
    ensures TotalOrder(RankLeq)
  {
    forall a: Scored, b: Scored
      ensures RankLeq(a, b) || RankLeq(b, a)
      ensures RankLeq(a, b) && RankLeq(b, a) ==> a == b
    {
      StrTotal(a.id, b.id);
    }
    forall a: Scored, b: Scored, c: Scored | RankLeq(a, b) && RankLeq(b, c) ensures RankLeq(a, c) {
      if a.score == b.score == c.score {
        StrTransitive(a.id, b.id, c.id);
      }
    }
  }

  // ---- sorting by a total order ----

  ghost predicate Preorder<T(!new)>(leq: (T, T) -> bool) {
    && (forall a, b :: leq(a, b) || leq(b, a))
    && (forall a, b, c :: leq(a, b) && leq(b, c) ==> leq(a, c))
  }

  ghost predicate TotalOrder<T(!new)>(leq: (T, T) -> bool) {
    Preorder(leq) && forall a, b :: leq(a, b) && leq(b, a) ==> a == b
  }

  ghost predicate Sorted<T>(s: seq<T>, leq: (T, T) -> bool) {
    forall i, j :: 0 <= i < j < |s| ==> leq(s[i], s[j])
  }

  function Insert<T>(x: T, s: seq<T>, leq: (T, T) -> bool): seq<T> {
    if s == [] || leq(x, s[0]) then [x] + s
    else [s[0]] + Insert(x, s[1..], leq)
  }

  function Sort<T>(s: seq<T>, leq: (T, T) -> bool): seq<T> {
    if s == [] then [] else Insert(s[0], Sort(s[1..], leq), leq)
  }

  lemma {:induction false} InsertPermutes<T>(x: T, s: seq<T>, leq: (T, T) -> bool)
    ensures multiset(Insert(x, s, leq)) == multiset{x} + multiset(s)
  {
    if s != [] && !leq(x, s[0]) {
      InsertPermutes(x, s[1..], leq);
      assert s == [s[0]] + s[1..];
    }
  }

  lemma {:induction false} InsertSorts<T(!new)>(x: T, s: seq<T>, leq: (T, T) -> bool)
    requires Preorder(leq) && Sorted(s, leq)
    ensures Sorted(Insert(x, s, leq), leq)
  {
    if s != [] && !leq(x, s[0]) {
      var t := Insert(x, s[1..], leq);
      InsertSorts(x, s[1..], leq);
      InsertPermutes(x, s[1..], leq);
      forall i | 0 <= i < |t| ensures leq(s[0], t[i]) {
        assert t[i] in multiset(t);
        assert t[i] == x || t[i] in s[1..];
      }
    }
  }

  lemma {:induction false} SortPermutes<T>(s: seq<T>, leq: (T, T) -> bool)
    ensures multiset(Sort(s, leq)) == multiset(s)
    ensures |Sort(s, leq)| == |s|
  {
    if s != [] {
      SortPermutes(s[1..], leq);
      InsertPermutes(s[0], Sort(s[1..], leq), leq);
      assert s == [s[0]] + s[1..];
    }
    assert |multiset(Sort(s, leq))| == |multiset(s)|;
  }

  lemma {:induction false} SortSorts<T(!new)>(s: seq<T>, leq: (T, T) -> bool)
    requires Preorder(leq)
    ensures Sorted(Sort(s, leq), leq)
  {
    if s != [] {
      SortSorts(s[1..], leq);
      InsertSorts(s[0], Sort(s[1..], leq), leq);
    }
  }

  lemma SortMembers<T>(s: seq<T>, leq: (T, T) -> bool)
    ensures forall x :: x in Sort(s, leq) <==> x in s
  {
    SortPermutes(s, leq);
    forall x ensures x in Sort(s, leq) <==> x in s {
      assert x in Sort(s, leq) <==> x in multiset(Sort(s, leq));
      assert x in s <==> x in multiset(s);
    }
  }

  // ---- counting ----

  lemma TwiceCounted<T>(s: seq<T>, i: nat, j: nat)
    requires i < j < |s|
    ensures s[i] == s[j] ==> multiset(s)[s[i]] >= 2
  {
    assert s == s[..i] + [s[i]] + s[i + 1..j] + [s[j]] + s[j + 1..];
  }

  lemma TailItems<T>(a: seq<T>)
    requires a != []
    ensures multiset(a[1..]) == multiset(a) - multiset{a[0]}
  {
    assert a == [a[0]] + a[1..];
  }

  lemma SameSize<T>(a: seq<T>, b: seq<T>)
    requires multiset(a) == multiset(b)
    ensures |a| == |b|
  {
    assert |multiset(a)| == |multiset(b)|;
  }
}
