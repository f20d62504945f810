/** Neighbour candidates: the graph neighbours of expanded hits, admitted by rank. */
module Neighbors {
  import opened Common
  import opened Ordering
  import opened Scenarios
  import opened Selection

  const MAX_ADMITTED: nat := 8

  /** `i32` division by two, which truncates toward zero. */
  function TruncHalf(score: int): int {
    if score >= 0 then score / 2 else -((-score) / 2)
  }

  /** The score recorded for a hit; a later entry for the same id replaces it. */
  function HitScore(hits: seq<Hit>, id: Id): int {
    if hits == [] then 0
    else if hits[|hits| - 1].id == id then hits[|hits| - 1].score
    else HitScore(hits[..|hits| - 1], id)
  }

  function Across(e: Edge, id: Id): Option<Id> {
    if e.from == id then Some(e.to)
    else if e.to == id then Some(e.from)
    else None
  }

  /** The other ends of `id`'s edges, other than itself and the hits. */
  function NeighborsOf(edges: seq<Edge>, hitIds: set<Id>, id: Id): set<Id> {
    set e | e in edges && Across(e, id).Some? && Across(e, id).value != id && Across(e, id).value !in hitIds
      :: Across(e, id).value
  }

  /** An edge between the two, in either direction. */
  predicate Linked(edges: seq<Edge>, a: Id, b: Id) {
    Edge(a, b) in edges || Edge(b, a) in edges
  }

  predicate IsHit(sc: Scenario, id: Id) {
    exists h :: h in sc.hits && h.id == id
  }

  /** `r` makes `n` a neighbour: another node, no hit, linked to it. */
  ghost predicate Refers(sc: Scenario, referrers: set<Id>, r: Id, n: Id) {
    r in referrers && r != n && !IsHit(sc, n) && Linked(sc.edges, r, n)
  }

  lemma NeighborsAreLinked(sc: Scenario, r: Id, n: Id)
    ensures n in NeighborsOf(sc.edges, HitIds(sc), r) <==> r != n && !IsHit(sc, n) && Linked(sc.edges, r, n)
  {
    if r != n && !IsHit(sc, n) && Linked(sc.edges, r, n) {
      var e := if Edge(r, n) in sc.edges then Edge(r, n) else Edge(n, r);
      assert e in sc.edges && Across(e, r) == Some(n);
    }
  }

  lemma ReferrersRefer(sc: Scenario, referrers: set<Id>)
    ensures forall r, n :: r in referrers && n in NeighborsOf(sc.edges, HitIds(sc), r) <==> Refers(sc, referrers, r, n)
  {
    forall r, n ensures r in referrers && n in NeighborsOf(sc.edges, HitIds(sc), r) <==> Refers(sc, referrers, r, n) {
      NeighborsAreLinked(sc, r, n);
    }
  }

  /** The neighbours are exactly the nodes that no search hit and that some referrer is
      linked to. */
  lemma NeighborIdsIff(sc: Scenario, referrers: set<Id>, n: Id)
    ensures n in NeighborIds(sc, referrers) <==>
              !IsHit(sc, n) && exists r :: r in referrers && r != n && Linked(sc.edges, r, n)
  {
    hide NeighborsOf, Linked;
    ReferrersRefer(sc, referrers);
    if r :| r in referrers && r != n && Linked(sc.edges, r, n) {
      assert !IsHit(sc, n) ==> Refers(sc, referrers, r, n);
    }
    if n in NeighborIds(sc, referrers) {
      var r :| r in referrers && n in NeighborsOf(sc.edges, HitIds(sc), r);
      assert Refers(sc, referrers, r, n);
    }
  }

  /** Halving goes toward zero, for negative scores too. */
  lemma HalfTowardZero(score: int)
    ensures score >= 0 ==> 0 <= 2 * TruncHalf(score) <= score < 2 * TruncHalf(score) + 2
    ensures score <= 0 ==> 2 * TruncHalf(score) - 2 < score <= 2 * TruncHalf(score) <= 0
  {}

  /** The score of the last hit of that id; nothing for an id that was not hit. */
  lemma {:induction false} HitScoreIsTheLast(hits: seq<Hit>, id: Id)
    ensures (forall h :: h in hits ==> h.id != id) ==> HitScore(hits, id) == 0
    ensures forall i :: 0 <= i < |hits| && hits[i].id == id && (forall j :: i < j < |hits| ==> hits[j].id != id) ==>
              HitScore(hits, id) == hits[i].score
  {
    if hits != [] && hits[|hits| - 1].id != id {
      HitScoreIsTheLast(hits[..|hits| - 1], id);
    }
  }

  ghost function NeighborIds(sc: Scenario, referrers: set<Id>): set<Id> {
    set r, n | r in referrers && n in NeighborsOf(sc.edges, HitIds(sc), r) :: n
  }

  function Decayed(sc: Scenario, r: Id): int {
    TruncHalf(HitScore(sc.hits, r))
  }

  ghost function Referrers(sc: Scenario, referrers: set<Id>, n: Id): set<Id> {
    set r | r in referrers && n in NeighborsOf(sc.edges, HitIds(sc), r)
  }

  ghost function TopScore(sc: Scenario, rs: set<Id>): (top: int)
    requires rs != {}
    ensures exists r :: r in rs && top == Decayed(sc, r)
    ensures forall r :: r in rs ==> Decayed(sc, r) <= top
  {
    var x :| x in rs;
    var rest := rs - {x};
    assert forall r :: r in rs ==> r == x || r in rest;
    if rest == {} then Decayed(sc, x)
    else
      var m := TopScore(sc, rest);
      if Decayed(sc, x) > m then Decayed(sc, x) else m
  }

  ghost predicate IsBestOffer(sc: Scenario, referrers: set<Id>, n: Id, score: int) {
    && (exists r :: Refers(sc, referrers, r, n) && score == Decayed(sc, r))
    && (forall r :: Refers(sc, referrers, r, n) ==> Decayed(sc, r) <= score)
  }

  lemma BestOfferIsTop(sc: Scenario, referrers: set<Id>, n: Id, score: int)
    requires n in NeighborIds(sc, referrers)
    ensures Referrers(sc, referrers, n) != {}
    ensures score == TopScore(sc, Referrers(sc, referrers, n)) <==> IsBestOffer(sc, referrers, n, score)
  {
    var rs := Referrers(sc, referrers, n);
    ReferrersRefer(sc, referrers);
    var r :| r in referrers && n in NeighborsOf(sc.edges, HitIds(sc), r);
    assert r in rs;
    assert forall q :: q in rs <==> Refers(sc, referrers, q, n);
  }

  /** Every neighbour with the best decayed score any referrer offers it. */
  ghost function Scores(sc: Scenario, referrers: set<Id>): (m: map<Id, int>)
    ensures m.Keys == NeighborIds(sc, referrers)
  {
    map n | n in NeighborIds(sc, referrers) :: (BestOfferIsTop(sc, referrers, n, 0); TopScore(sc, Referrers(sc, referrers, n)))
  }

  function Listed(ids: seq<Id>, m: map<Id, int>): (s: seq<Scored>)
    requires forall id :: id in ids ==> id in m
    ensures |s| == |ids| && forall i :: 0 <= i < |ids| ==> s[i] == Scored(ids[i], m[ids[i]])
  {
    seq(|ids|, i requires 0 <= i < |ids| => Scored(ids[i], m[ids[i]]))
  }

  ghost function Ranking(sc: Scenario, referrers: set<Id>): seq<Scored> {
    var m := Scores(sc, referrers);
    KeysInOrder(m);
    Sort(Listed(InOrder(m.Keys), m), RankLeq)
  }

  lemma KeysInOrder(m: map<Id, int>)
    ensures forall id :: id in InOrder(m.Keys) <==> id in m
  {
    assert forall id :: id in InOrder(m.Keys) <==> id in Elements(InOrder(m.Keys));
  }

  /** The admitted candidates: the first eight of the ranking. */
  ghost function Admitted(sc: Scenario, referrers: set<Id>): seq<Scored> {
    var r := Ranking(sc, referrers);
    r[..Min(MAX_ADMITTED, |r|)]
  }

  /** The ranking holds each distinct non-hit neighbour once, with the maximum of the
      truncated half scores of its referrers, best score first and then lowest id. */
  lemma RankingIsComplete(sc: Scenario, referrers: set<Id>)
    ensures Sorted(Ranking(sc, referrers), RankLeq)
    ensures |Ranking(sc, referrers)| == |NeighborIds(sc, referrers)|
    ensures forall c :: c in Ranking(sc, referrers) <==> IsBestOffer(sc, referrers, c.id, c.score)
  {
    var m := Scores(sc, referrers);
    var ids := InOrder(m.Keys);
    KeysInOrder(m);
    var listed := Listed(ids, m);
    RankIsTotal();
    SortSorts(listed, RankLeq);
    SortPermutes(listed, RankLeq);
    AscendingSize(ids);
    forall c ensures c in Ranking(sc, referrers) <==> IsBestOffer(sc, referrers, c.id, c.score) {
      RankedMember(sc, referrers, c);
      OfferedIsNeighbor(sc, referrers, c.id, c.score);
    }
  }

  /** At most eight are admitted, and whoever is left out is outranked by all of them. */
  lemma AdmittedAreTheFirstEight(sc: Scenario, referrers: set<Id>)
    ensures |Admitted(sc, referrers)| == Min(8, |NeighborIds(sc, referrers)|)
    ensures forall c :: c in Admitted(sc, referrers) ==> IsBestOffer(sc, referrers, c.id, c.score)
    ensures forall a: Scored, c: Scored :: a in Admitted(sc, referrers) && IsBestOffer(sc, referrers, c.id, c.score) ==>
              c in Admitted(sc, referrers) || RankLeq(a, c)
  {
    RankingIsComplete(sc, referrers);
    hide Ranking, IsBestOffer, NeighborIds;
    var ranking, admitted := Ranking(sc, referrers), Admitted(sc, referrers);
    forall a | a in admitted ensures a in ranking {}
    forall a, c | a in admitted && c in ranking && c !in admitted ensures RankLeq(a, c) {
      OutrankedByPrefix(ranking, |admitted|, a, c);
    }
  }

  lemma OutrankedByPrefix(s: seq<Scored>, n: nat, a: Scored, c: Scored)
    requires n <= |s| && Sorted(s, RankLeq) && a in s[..n] && c in s && c !in s[..n]
    ensures RankLeq(a, c)
  {
    var i :| 0 <= i < n && s[i] == a;
    var j :| 0 <= j < |s| && s[j] == c;
    assert forall k :: 0 <= k < n ==> s[k] in s[..n];
  }

  lemma OfferedIsNeighbor(sc: Scenario, referrers: set<Id>, n: Id, score: int)
    ensures IsBestOffer(sc, referrers, n, score) ==> n in NeighborIds(sc, referrers)
  {
    ReferrersRefer(sc, referrers);
  }

  lemma RankedMember(sc: Scenario, referrers: set<Id>, c: Scored)
    ensures c in Ranking(sc, referrers) <==>
              c.id in NeighborIds(sc, referrers) && IsBestOffer(sc, referrers, c.id, c.score)
  {
    var m := Scores(sc, referrers);
    KeysInOrder(m);
    SortMembers(Listed(InOrder(m.Keys), m), RankLeq);
    ListedMember(InOrder(m.Keys), m, c);
    if c.id in m {
      BestOfferIsTop(sc, referrers, c.id, c.score);
    }
  }

  lemma ListedMember(ids: seq<Id>, m: map<Id, int>, c: Scored)
    requires forall id :: id in ids ==> id in m
    ensures c in Listed(ids, m) <==> c.id in ids && c.score == m[c.id]
  {
    if c.id in ids {
      var k :| 0 <= k < |ids| && ids[k] == c.id;
      assert Listed(ids, m)[k] == Scored(c.id, m[c.id]);
    }
  }

  lemma {:induction false} AscendingSize(s: seq<string>)
    requires Ascending(s)
    ensures |Elements(s)| == |s|
  {
    if s != [] {
      AscendingSize(s[1..]);
      assert s == [s[0]] + s[1..];
      assert Elements(s) == {s[0]} + Elements(s[1..]);
      assert s[0] !in Elements(s[1..]);
    }
  }

  /** Admission sees only which nodes are linked: the order and repetition of edges, their
      direction and the order of referrers make no difference. */
  lemma AdmissionSeesOnlyLinks(sc: Scenario, sc': Scenario, referrers: set<Id>)
    requires forall a, b :: Linked(sc.edges, a, b) <==> Linked(sc'.edges, a, b)
    requires sc.hits == sc'.hits
    ensures Admitted(sc, referrers) == Admitted(sc', referrers)
    ensures NeighborIds(sc, referrers) == NeighborIds(sc', referrers)
  {
    hide Sort, InOrder, Listed, TopScore, Linked, NeighborsOf;
    forall n ensures n in NeighborIds(sc, referrers) <==> n in NeighborIds(sc', referrers) {
      NeighborIdsIff(sc, referrers, n);
      NeighborIdsIff(sc', referrers, n);
    }
    assert forall r :: Decayed(sc, r) == Decayed(sc', r);
    forall n | n in NeighborIds(sc, referrers) ensures Scores(sc, referrers)[n] == Scores(sc', referrers)[n] {
      BestOfferIsTop(sc, referrers, n, Scores(sc, referrers)[n]);
      BestOfferIsTop(sc', referrers, n, Scores(sc, referrers)[n]);
      assert forall r :: Refers(sc, referrers, r, n) <==> Refers(sc', referrers, r, n);
    }
    assert Scores(sc, referrers) == Scores(sc', referrers);
  }

  lemma AdmissionIgnoresOrder(sc: Scenario, sc': Scenario, referrers: set<Id>)
    requires Elements(sc.edges) == Elements(sc'.edges) && sc.hits == sc'.hits
    ensures Admitted(sc, referrers) == Admitted(sc', referrers)
    ensures NeighborIds(sc, referrers) == NeighborIds(sc', referrers)
  {
    assert forall e :: e in sc.edges <==> e in Elements(sc'.edges);
    AdmissionSeesOnlyLinks(sc, sc', referrers);
  }

  /** Reversing an edge changes no admission. */
  lemma ReversalIsNotSeen(sc: Scenario, i: nat, referrers: set<Id>)
    requires i < |sc.edges|
    ensures var e := sc.edges[i];
            Admitted(sc.(edges := sc.edges[i := Edge(e.to, e.from)]), referrers) == Admitted(sc, referrers)
  {
    var e := sc.edges[i];
    var back := Edge(e.to, e.from);
    var sc' := sc.(edges := sc.edges[i := back]);
    forall a, b ensures Linked(sc.edges, a, b) <==> Linked(sc'.edges, a, b) {
      forall x: Edge | x in sc.edges && x != e ensures x in sc'.edges {
        var j :| 0 <= j < |sc.edges| && sc.edges[j] == x;
        assert sc'.edges[j] == x;
      }
      assert sc'.edges[i] == back && sc.edges[i] == e;
    }
    AdmissionSeesOnlyLinks(sc', sc, referrers);
  }

  // ---- the code ----

  ghost predicate Best(sc: Scenario, done: set<Id>, m: map<Id, int>) {
    && m.Keys == NeighborIds(sc, done)
    && forall n :: n in m ==> IsBestOffer(sc, done, n, m[n])
  }

  /** One referrer's edges, each neighbour keeping the larger score. */
  method AddReferrer(sc: Scenario, hitIds: set<Id>, r: Id, m: map<Id, int>) returns (m': map<Id, int>)
    requires hitIds == HitIds(sc)
    ensures m'.Keys == m.Keys + NeighborsOf(sc.edges, hitIds, r)
    ensures forall n :: n in m' ==>
              m'[n] == if n !in NeighborsOf(sc.edges, hitIds, r) then m[n]
                       else if n in m && m[n] >= Decayed(sc, r) then m[n]
                       else Decayed(sc, r)
  {
    m' := m;
    var decayed := Decayed(sc, r);
    for i := 0 to |sc.edges|
      invariant m'.Keys == m.Keys + NeighborsOf(sc.edges[..i], hitIds, r)
      invariant forall n :: n in m' ==>
                  m'[n] == if n !in NeighborsOf(sc.edges[..i], hitIds, r) then m[n]
                           else if n in m && m[n] >= decayed then m[n]
                           else decayed
    {
      var e := sc.edges[i];
      var other := Across(e, r);
      assert sc.edges[..i + 1] == sc.edges[..i] + [e];
      assert NeighborsOf(sc.edges[..i + 1], hitIds, r) ==
             NeighborsOf(sc.edges[..i], hitIds, r)
             + (if other.Some? && other.value != r && other.value !in hitIds then {other.value} else {});
      if other.Some? && other.value != r && other.value !in hitIds {
        var n := other.value;
        if n !in m' || decayed > m'[n] {
          m' := m'[n := decayed];
        }
      }
    }
    assert sc.edges[..|sc.edges|] == sc.edges;
  }

  lemma ReferrerAdded(sc: Scenario, done: set<Id>, r: Id, m: map<Id, int>, m': map<Id, int>)
    requires Best(sc, done, m)
    requires m'.Keys == m.Keys + NeighborsOf(sc.edges, HitIds(sc), r)
    requires forall n :: n in m' ==>
               m'[n] == if n !in NeighborsOf(sc.edges, HitIds(sc), r) then m[n]
                        else if n in m && m[n] >= Decayed(sc, r) then m[n]
                        else Decayed(sc, r)
    ensures Best(sc, done + {r}, m')
  {
    ReferrersRefer(sc, done);
    ReferrersRefer(sc, done + {r});
    forall n | n in m' ensures IsBestOffer(sc, done + {r}, n, m'[n]) {
      assert n in NeighborsOf(sc.edges, HitIds(sc), r) ==> Refers(sc, done + {r}, r, n);
      if n in m {
        var q :| Refers(sc, done, q, n) && m[n] == Decayed(sc, q);
        assert Refers(sc, done + {r}, q, n);
      }
      forall q | Refers(sc, done + {r}, q, n) ensures Decayed(sc, q) <= m'[n] {
        assert q == r || Refers(sc, done, q, n);
      }
    }
  }

  lemma BestIsScores(sc: Scenario, referrers: set<Id>, m: map<Id, int>)
    requires Best(sc, referrers, m)
    ensures m == Scores(sc, referrers)
  {
    forall n | n in m ensures m[n] == Scores(sc, referrers)[n] {
      BestOfferIsTop(sc, referrers, n, m[n]);
    }
  }

  method ScoreNeighbors(sc: Scenario, expanded: set<Id>) returns (m: map<Id, int>)
    ensures m == Scores(sc, expanded)
  {
    var hitIds := HitIds(sc);
    m := map[];
    var rest := expanded;
    while rest != {}
      invariant rest <= expanded && Best(sc, expanded - rest, m)
    {
      var r :| r in rest;
      var next := AddReferrer(sc, hitIds, r, m);
      ReferrerAdded(sc, expanded - rest, r, m, next);
      assert expanded - (rest - {r}) == (expanded - rest) + {r};
      m, rest := next, rest - {r};
    }
    assert expanded - rest == expanded;
    BestIsScores(sc, expanded, m);
  }

  /** `neighbor_candidates_for_scenario`: the admitted list and the number generated. */
  method NeighborCandidates(sc: Scenario, expanded: set<Id>) returns (candidates: seq<Scored>, generated: nat)
    ensures candidates == Admitted(sc, expanded)
    ensures generated == |NeighborIds(sc, expanded)| && |candidates| == Min(8, generated)
  {
    hide NeighborIds, IsBestOffer, Sort, InOrder;
    var m := ScoreNeighbors(sc, expanded);
    generated := |m.Keys|;
    var keys := ListInOrder(m.Keys);
    KeysInOrder(m);
    candidates := Sort(Listed(keys, m), RankLeq);
    if |candidates| > MAX_ADMITTED {
      candidates := candidates[..MAX_ADMITTED];
    }
    assert candidates == Admitted(sc, expanded);
    hide Admitted, Scores;
    AdmittedAreTheFirstEight(sc, expanded);
  }
}
