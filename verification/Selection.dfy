/** Which hits each paging strategy expands. */
module Selection {
  import opened Common
  import opened Ordering
  import opened Scenarios

  datatype Strategy = ExhaustiveV1 | ProgressiveV2 | ProgressiveV3

  /** Distinct query tokens that occur in the summary. */
  function Overlap(sc: Scenario, id: Id): nat {
    |set t | t in sc.tokenize(sc.query) && t in sc.tokenize(SummaryOf(sc, id))|
  }

  function Threshold(sc: Scenario): nat {
    Min(2, |sc.tokenize(sc.query)|)
  }

  predicate Eligible(sc: Scenario, h: Hit) {
    h.matched == "summary" && Expandable(sc, h.id)
  }

  predicate Passing(sc: Scenario, h: Hit) {
    Eligible(sc, h) && Overlap(sc, h.id) >= Threshold(sc)
  }

  /** A hit passes when it was matched by its summary, has a level to expand to, and its
      summary shares two different tokens with the query, or all there are if fewer. */
  lemma PassingIff(sc: Scenario, h: Hit)
    ensures Passing(sc, h) <==>
              && h.matched == "summary" && Expandable(sc, h.id)
              && var asked, told := sc.tokenize(sc.query), sc.tokenize(SummaryOf(sc, h.id));
                 || |asked| == 0
                 || (|asked| == 1 && asked[0] in told)
                 || (|asked| >= 2 && exists t, u :: t != u && t in asked && t in told && u in asked && u in told)
  {
    var asked, told := sc.tokenize(sc.query), sc.tokenize(SummaryOf(sc, h.id));
    var common := set t | t in asked && t in told;
    assert Overlap(sc, h.id) == |common| && Threshold(sc) == Min(2, |asked|);
    hide Overlap, Threshold, SummaryOf, Expandable;
    if |asked| == 1 {
      assert asked == [asked[0]];
      assert asked[0] in told ==> asked[0] in common;
      AtLeastOne(common);
    } else if |asked| >= 2 {
      AtLeastTwo(common);
      if t, u :| t != u && t in common && u in common {
        assert t in asked && t in told && u in asked && u in told;
      }
      if t, u :| t != u && t in asked && t in told && u in asked && u in told {
        assert t in common && u in common;
      }
    }
  }

  lemma AtLeastOne(s: set<Token>)
    ensures |s| >= 1 <==> exists t :: t in s
  {
    if s != {} {
      var t :| t in s;
    }
  }

  lemma AtLeastTwo(s: set<Token>)
    ensures |s| >= 2 <==> exists t, u :: t != u && t in s && u in s
  {
    if t, u :| t != u && t in s && u in s {
      assert |s - {t, u}| == |s| - |{t, u}|;
    }
    if |s| >= 2 {
      var t :| t in s;
      assert |s - {t}| == |s| - 1;
      var u :| u in s - {t};
    }
  }

  function Rated(sc: Scenario, id: Id): Scored {
    Scored(id, Overlap(sc, id))
  }

  function HitIds(sc: Scenario): set<Id> {
    set h | h in sc.hits :: h.id
  }

  function EligibleIds(sc: Scenario): set<Id> {
    set h | h in sc.hits && Eligible(sc, h) :: h.id
  }

  function PassingIds(sc: Scenario): set<Id> {
    set h | h in sc.hits && Passing(sc, h) :: h.id
  }

  // ---- the lists the code builds ----

  /** Hits over the threshold, in hit order; a node hit twice is listed twice. */
  function Candidates(sc: Scenario, hits: seq<Hit>): seq<Scored> {
    if hits == [] then []
    else
      var rest := Candidates(sc, hits[..|hits| - 1]);
      var h := hits[|hits| - 1];
      if Passing(sc, h) then rest + [Rated(sc, h.id)] else rest
  }

  /** The eligible hit that ranks first, scanning from the left. */
  function Fallback(sc: Scenario, hits: seq<Hit>): Option<Scored> {
    if hits == [] then None
    else
      var best := Fallback(sc, hits[..|hits| - 1]);
      var h := hits[|hits| - 1];
      if !Eligible(sc, h) then best
      else if best.None? || Beats(Rated(sc, h.id), best.value) then Some(Rated(sc, h.id))
      else best
  }

  predicate Beats(a: Scored, b: Scored) {
    a.score > b.score || (a.score == b.score && StrLt(a.id, b.id))
  }

  /** What the progressive strategies choose from. */
  function Pool(sc: Scenario): seq<Scored> {
    var passing := Candidates(sc, sc.hits);
    if passing != [] then passing
    else match Fallback(sc, sc.hits)
         case None => []
         case Some(best) => [Scored(best.id, 0)]
  }

  function IdsOf(s: seq<Scored>): set<Id> {
    set c | c in s :: c.id
  }

  lemma NonEmptyHasIds(s: seq<Scored>)
    ensures s != [] ==> IdsOf(s) != {}
  {
    if s != [] {
      assert s[0].id in IdsOf(s);
    }
  }

  function TopK(sc: Scenario, k: nat): set<Id> {
    var ranked := Sort(Pool(sc), RankLeq);
    IdsOf(ranked[..Min(k, |ranked|)])
  }

  function Expanded(sc: Scenario, strategy: Strategy): set<Id> {
    match strategy
    case ExhaustiveV1 => set h | h in sc.hits && Expandable(sc, h.id) :: h.id
    case ProgressiveV2 => IdsOf(Pool(sc))
    case ProgressiveV3 =>
      var ranked := Sort(Pool(sc), RankLeq);
      if ranked == [] then {} else {ranked[0].id}
  }

  // ---- what the lists mean ----

  lemma {:induction false} CandidatesArePassing(sc: Scenario, hits: seq<Hit>)
    ensures forall c :: c in Candidates(sc, hits) <==> exists h :: h in hits && Passing(sc, h) && c == Rated(sc, h.id)
    ensures IdsOf(Candidates(sc, hits)) == set h | h in hits && Passing(sc, h) :: h.id
  {
    if hits != [] {
      var front, last := hits[..|hits| - 1], hits[|hits| - 1];
      assert hits == front + [last];
      CandidatesArePassing(sc, front);
    }
    forall id ensures id in IdsOf(Candidates(sc, hits)) <==> id in (set h | h in hits && Passing(sc, h) :: h.id) {
      if h :| h in hits && Passing(sc, h) && h.id == id {
        assert Rated(sc, h.id) in Candidates(sc, hits);
      }
    }
  }

  /** `b` is an eligible hit that no eligible hit outranks. */
  ghost predicate IsBest(sc: Scenario, hits: seq<Hit>, b: Id) {
    && (exists h :: h in hits && Eligible(sc, h) && h.id == b)
    && forall h :: h in hits && Eligible(sc, h) ==> RankLeq(Rated(sc, b), Rated(sc, h.id))
  }

  lemma {:induction false} FallbackIsBest(sc: Scenario, hits: seq<Hit>)
    ensures Fallback(sc, hits).None? <==> forall h :: h in hits ==> !Eligible(sc, h)
    ensures Fallback(sc, hits).Some? ==>
              && Fallback(sc, hits).value == Rated(sc, Fallback(sc, hits).value.id)
              && IsBest(sc, hits, Fallback(sc, hits).value.id)
  {
    if hits != [] {
      var front, last := hits[..|hits| - 1], hits[|hits| - 1];
      assert hits == front + [last];
      FallbackIsBest(sc, front);
      var before := Fallback(sc, front);
      if Eligible(sc, last) {
        assert last in hits;
        RankIsTotal();
        if before.Some? {
          StrTotal(last.id, before.value.id);
          assert Beats(Rated(sc, last.id), before.value) ==> RankLeq(Rated(sc, last.id), before.value);
          assert !Beats(Rated(sc, last.id), before.value) ==> RankLeq(before.value, Rated(sc, last.id));
        }
      }
    }
  }

  /** V2 expands every hit over the threshold, or failing that the single best
      eligible hit, or nothing. */
  lemma V2Expands(sc: Scenario)
    ensures PassingIds(sc) != {} ==> Expanded(sc, ProgressiveV2) == PassingIds(sc)
    ensures PassingIds(sc) == {} && EligibleIds(sc) != {} ==>
              exists b :: IsBest(sc, sc.hits, b) && Expanded(sc, ProgressiveV2) == {b}
    ensures EligibleIds(sc) == {} ==> Expanded(sc, ProgressiveV2) == {}
  {
    CandidatesArePassing(sc, sc.hits);
    FallbackIsBest(sc, sc.hits);
    var passing := Candidates(sc, sc.hits);
    if passing != [] {
      assert passing[0].id in IdsOf(passing);
      assert PassingIds(sc) <= EligibleIds(sc);
    } else {
      assert PassingIds(sc) == {};
      if h :| h in sc.hits && Eligible(sc, h) {
        var b := Fallback(sc, sc.hits).value.id;
        assert h.id in EligibleIds(sc);
        assert Expanded(sc, ProgressiveV2) == {b};
      } else {
        assert EligibleIds(sc) == {};
      }
    }
  }

  lemma PoolIsEmptyIff(sc: Scenario)
    ensures Pool(sc) == [] <==> EligibleIds(sc) == {}
  {
    CandidatesArePassing(sc, sc.hits);
    FallbackIsBest(sc, sc.hits);
    if Candidates(sc, sc.hits) != [] {
      assert Candidates(sc, sc.hits)[0] in Candidates(sc, sc.hits);
      var h :| h in sc.hits && Passing(sc, h);
      assert h.id in EligibleIds(sc);
    } else if h :| h in sc.hits && Eligible(sc, h) {
      assert h.id in EligibleIds(sc);
    }
  }

  /** V3 expands the one eligible hit that outranks all others, threshold or not. */
  lemma V3ExpandsTheBest(sc: Scenario)
    ensures EligibleIds(sc) == {} ==> Expanded(sc, ProgressiveV3) == {}
    ensures EligibleIds(sc) != {} ==>
              exists b :: IsBest(sc, sc.hits, b) && Expanded(sc, ProgressiveV3) == {b}
  {
    var pool := Pool(sc);
    var ranked := Sort(pool, RankLeq);
    PoolIsEmptyIff(sc);
    SortPermutes(pool, RankLeq);
    SortMembers(pool, RankLeq);
    if pool != [] {
      RankIsTotal();
      SortSorts(pool, RankLeq);
      CandidatesArePassing(sc, sc.hits);
      FallbackIsBest(sc, sc.hits);
      var b := ranked[0];
      assert b in pool;
      if Candidates(sc, sc.hits) != [] {
        FirstCandidateIsBest(sc, b, ranked);
      } else {
        assert b.id == Fallback(sc, sc.hits).value.id;
      }
      assert IsBest(sc, sc.hits, b.id);
    }
  }

  lemma FirstCandidateIsBest(sc: Scenario, b: Scored, ranked: seq<Scored>)
    requires ranked != [] && b == ranked[0] && Sorted(ranked, RankLeq)
    requires forall c :: c in ranked <==> exists h :: h in sc.hits && Passing(sc, h) && c == Rated(sc, h.id)
    ensures IsBest(sc, sc.hits, b.id)
  {
    assert b in ranked;
    var g :| g in sc.hits && Passing(sc, g) && b == Rated(sc, g.id);
    RankIsTotal();
    forall h | h in sc.hits && Eligible(sc, h) ensures RankLeq(b, Rated(sc, h.id)) {
      if Passing(sc, h) {
        assert Rated(sc, h.id) in ranked;
        var i :| 0 <= i < |ranked| && ranked[i] == Rated(sc, h.id);
        StrReflexive(b.id);
      }
    }
  }

  // ---- the chain of strategies ----

  /** Top-1 is V3; each top-k is contained in the next and in V2, which is contained in
      V1; top-k is V2 once k covers the pool; and for k at least 1 the set is non-empty
      exactly when some summary hit is expandable. Duplicate hits are allowed. */
  lemma StrategiesFormAChain(sc: Scenario, k: nat)
    ensures TopK(sc, 1) == Expanded(sc, ProgressiveV3)
    ensures TopK(sc, k) <= TopK(sc, k + 1)
    ensures TopK(sc, k) <= Expanded(sc, ProgressiveV2) <= Expanded(sc, ExhaustiveV1)
    ensures k >= |Pool(sc)| ==> TopK(sc, k) == Expanded(sc, ProgressiveV2)
    ensures k >= 1 ==> (TopK(sc, k) != {} <==> EligibleIds(sc) != {})
  {
    hide Pool, Candidates, Fallback, Expandable, EligibleIds;
    var pool := Pool(sc);
    PoolIsEmptyIff(sc);
    PoolIsExpandable(sc);
    PrefixesOfRanking(pool, k);
    PrefixesOfRanking(pool, 1);
  }

  /** The ids of the first `k` of a ranked list. */
  lemma PrefixesOfRanking(pool: seq<Scored>, k: nat)
    ensures var ranked := Sort(pool, RankLeq);
            && |ranked| == |pool|
            && IdsOf(ranked[..Min(k, |ranked|)]) <= IdsOf(ranked[..Min(k + 1, |ranked|)])
            && IdsOf(ranked[..Min(k, |ranked|)]) <= IdsOf(pool)
            && (k >= |pool| ==> IdsOf(ranked[..Min(k, |ranked|)]) == IdsOf(pool))
            && (k >= 1 ==> (IdsOf(ranked[..Min(k, |ranked|)]) != {} <==> pool != []))
            && (ranked != [] ==> IdsOf(ranked[..Min(1, |ranked|)]) == {ranked[0].id})
  {
    var ranked := Sort(pool, RankLeq);
    SortPermutes(pool, RankLeq);
    SortMembers(pool, RankLeq);
    var front := ranked[..Min(k, |ranked|)];
    forall c | c in front ensures c in ranked[..Min(k + 1, |ranked|)] && c in pool {
      assert c in ranked;
    }
    NonEmptyHasIds(front);
    if k >= |pool| {
      assert front == ranked;
    }
    if ranked != [] {
      assert ranked[..1] == [ranked[0]];
    }
  }

  lemma PoolIsExpandable(sc: Scenario)
    ensures IdsOf(Pool(sc)) <= Expanded(sc, ExhaustiveV1)
  {
    CandidatesArePassing(sc, sc.hits);
    FallbackIsBest(sc, sc.hits);
  }

  // ---- the code ----

  /** `expanded_ids_for_scenario`. */
  method ExpandedIds(sc: Scenario, strategy: Strategy) returns (ids: set<Id>)
    ensures ids == Expanded(sc, strategy)
  {
    match strategy
    case ExhaustiveV1 =>
      ids := {};
      for i := 0 to |sc.hits|
        invariant ids == set h | h in sc.hits[..i] && Expandable(sc, h.id) :: h.id
      {
        if Expandable(sc, sc.hits[i].id) {
          ids := ids + {sc.hits[i].id};
        }
      }
      assert sc.hits[..|sc.hits|] == sc.hits;
    case ProgressiveV2 => ids := ExpandedByThreshold(sc);
    case ProgressiveV3 =>
      var pool := BuildPool(sc);
      var ranked := Sort(pool, RankLeq);
      ids := if ranked == [] then {} else {ranked[0].id};
  }

  /** The V2 branch. */
  method ExpandedByThreshold(sc: Scenario) returns (ids: set<Id>)
    ensures ids == IdsOf(Pool(sc))
  {
    ids := {};
    for i := 0 to |sc.hits|
      invariant ids == IdsOf(Candidates(sc, sc.hits[..i]))
    {
      assert sc.hits[..i + 1][..i] == sc.hits[..i];
      if Passing(sc, sc.hits[i]) {
        ids := ids + {sc.hits[i].id};
      }
    }
    assert sc.hits[..|sc.hits|] == sc.hits;
    if ids == {} {
      NonEmptyHasIds(Candidates(sc, sc.hits));
      var best := BestEligible(sc);
      if best.Some? {
        ids := {best.value.id};
      }
    }
  }

  /** The fallback loop: highest overlap, lowest id. */
  method BestEligible(sc: Scenario) returns (best: Option<Scored>)
    ensures best == Fallback(sc, sc.hits)
  {
    best := None;
    for i := 0 to |sc.hits|
      invariant best == Fallback(sc, sc.hits[..i])
    {
      assert sc.hits[..i + 1][..i] == sc.hits[..i];
      var h := sc.hits[i];
      if Eligible(sc, h) {
        var rated := Rated(sc, h.id);
        if best.None? || rated.score > best.value.score
           || (rated.score == best.value.score && StrLt(rated.id, best.value.id)) {
          best := Some(rated);
        }
      }
    }
    assert sc.hits[..|sc.hits|] == sc.hits;
  }

  method BuildPool(sc: Scenario) returns (pool: seq<Scored>)
    ensures pool == Pool(sc)
  {
    pool := [];
    for i := 0 to |sc.hits|
      invariant pool == Candidates(sc, sc.hits[..i])
    {
      assert sc.hits[..i + 1][..i] == sc.hits[..i];
      if Passing(sc, sc.hits[i]) {
        pool := pool + [Rated(sc, sc.hits[i].id)];
      }
    }
    assert sc.hits[..|sc.hits|] == sc.hits;
    if pool == [] {
      var best := BestEligible(sc);
      if best.Some? {
        pool := [Scored(best.value.id, 0)];
      }
    }
  }

  /** `expanded_ids_for_v3_topk`. */
  method ExpandedTopK(sc: Scenario, k: nat) returns (ids: set<Id>)
    ensures ids == TopK(sc, k)
  {
    var pool := BuildPool(sc);
    var ranked := Sort(pool, RankLeq);
    ids := {};
    var n := Min(k, |ranked|);
    for i := 0 to n
      invariant ids == IdsOf(ranked[..i])
    {
      ids := ids + {ranked[i].id};
    }
  }
}
