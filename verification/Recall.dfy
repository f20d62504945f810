/** Depth-aware recall: an answer counts when it was surfaced at its level or deeper. */
module Recall {
  import opened Common
  import opened Scenarios
  import opened Selection

  function Depth(level: Level): nat {
    match level
    case Identity => 0
    case Summary => 1
    case Structured => 2
    case Detailed => 3
    case Source => 4
  }

  /** `surfaced_rank_for_node`: an expanded node is seen at its best level, a hit that
      was only inspected at summary level. */
  function SurfacedRank(sc: Scenario, expanded: set<Id>, id: Id): Option<nat> {
    var isHit, isExpanded := id in HitIds(sc), id in expanded;
    var best := BestLevel(RepsOf(sc, id));
    if !isHit && !isExpanded then None
    else if isExpanded && best.Some? then Some(Depth(best.value))
    else if isHit && NodeOf(sc, id).Some? then Some(Depth(Summary))
    else None
  }

  predicate Recalled(sc: Scenario, answers: map<Id, Level>, expanded: set<Id>, id: Id) {
    && id in answers
    && SurfacedRank(sc, expanded, id).Some?
    && SurfacedRank(sc, expanded, id).value >= Depth(answers[id])
  }

  function Count(keys: seq<Id>, p: Id -> bool): nat {
    if keys == [] then 0
    else Count(keys[..|keys| - 1], p) + if p(keys[|keys| - 1]) then 1 else 0
  }

  function RecallOf(sc: Scenario, answers: map<Id, Level>, expanded: set<Id>): nat {
    Count(sc.answerKey, id => Recalled(sc, answers, expanded, id))
  }

  /** `depth_aware_recall_for_scenario`. */
  method DepthAwareRecall(sc: Scenario, answers: map<Id, Level>, expanded: set<Id>) returns (count: nat)
    ensures count == RecallOf(sc, answers, expanded)
  {
    count := 0;
    var p := id => Recalled(sc, answers, expanded, id);
    for i := 0 to |sc.answerKey|
      invariant count == Count(sc.answerKey[..i], p)
    {
      assert sc.answerKey[..i + 1][..i] == sc.answerKey[..i];
      var id := sc.answerKey[i];
      if id in answers {
        var rank := SurfacedRank(sc, expanded, id);
        if rank.Some? && rank.value >= Depth(answers[id]) {
          count := count + 1;
        }
      }
    }
    assert sc.answerKey[..|sc.answerKey|] == sc.answerKey;
  }

  // ---- expanding more is not always better ----

  /** Expanding this node hides its summary behind a bare identity. */
  predicate Demoted(sc: Scenario, answers: map<Id, Level>, fewer: set<Id>, more: set<Id>, id: Id) {
    && id in more && id !in fewer && id in answers
    && answers[id] == Summary
    && BestLevel(RepsOf(sc, id)) == Some(Identity)
    && NodeOf(sc, id).Some?
  }

  /** Expanding this node reaches an answer its summary does not hold. */
  predicate Promoted(sc: Scenario, answers: map<Id, Level>, fewer: set<Id>, more: set<Id>, id: Id) {
    && id in more && id !in fewer && id in answers
    && (var best := BestLevel(RepsOf(sc, id)); best.Some? && Depth(best.value) >= Depth(answers[id]))
    && !(NodeOf(sc, id).Some? && Depth(answers[id]) <= Depth(Summary))
  }

  function DemotedCount(sc: Scenario, answers: map<Id, Level>, fewer: set<Id>, more: set<Id>): nat {
    Count(sc.answerKey, id => Demoted(sc, answers, fewer, more, id))
  }

  function PromotedCount(sc: Scenario, answers: map<Id, Level>, fewer: set<Id>, more: set<Id>): nat {
    Count(sc.answerKey, id => Promoted(sc, answers, fewer, more, id))
  }

  lemma KeyBalance(sc: Scenario, answers: map<Id, Level>, fewer: set<Id>, more: set<Id>, id: Id)
    requires fewer <= more <= Expanded(sc, ExhaustiveV1)
    ensures !(Demoted(sc, answers, fewer, more, id) && Promoted(sc, answers, fewer, more, id))
    ensures Demoted(sc, answers, fewer, more, id) <==>
              Recalled(sc, answers, fewer, id) && !Recalled(sc, answers, more, id)
    ensures Promoted(sc, answers, fewer, more, id) <==>
              Recalled(sc, answers, more, id) && !Recalled(sc, answers, fewer, id)
  {
    if id in more {
      assert Expandable(sc, id) && id in HitIds(sc);
    }
  }

  lemma {:induction false} CountBalance(keys: seq<Id>, a: Id -> bool, b: Id -> bool, lost: Id -> bool, won: Id -> bool)
    requires forall id :: lost(id) <==> a(id) && !b(id)
    requires forall id :: won(id) <==> b(id) && !a(id)
    ensures Count(keys, b) + Count(keys, lost) == Count(keys, a) + Count(keys, won)
  {
    if keys != [] {
      CountBalance(keys[..|keys| - 1], a, b, lost, won);
    }
  }

  /** Conservation: going from one expanded set to a larger one, recall changes by
      exactly the answers promoted less the answers demoted. */
  lemma RecallBalance(sc: Scenario, answers: map<Id, Level>, fewer: set<Id>, more: set<Id>)
    requires fewer <= more <= Expanded(sc, ExhaustiveV1)
    ensures RecallOf(sc, answers, more) + DemotedCount(sc, answers, fewer, more)
            == RecallOf(sc, answers, fewer) + PromotedCount(sc, answers, fewer, more)
  {
    forall id
      ensures Demoted(sc, answers, fewer, more, id) <==>
                Recalled(sc, answers, fewer, id) && !Recalled(sc, answers, more, id)
      ensures Promoted(sc, answers, fewer, more, id) <==>
                Recalled(sc, answers, more, id) && !Recalled(sc, answers, fewer, id)
    {
      KeyBalance(sc, answers, fewer, more, id);
    }
    CountBalance(sc.answerKey,
                 id => Recalled(sc, answers, fewer, id), id => Recalled(sc, answers, more, id),
                 id => Demoted(sc, answers, fewer, more, id), id => Promoted(sc, answers, fewer, more, id));
  }

  /** No answer-key node that `expanded` expands has nothing but an identity. */
  ghost predicate AnswersHaveDepth(sc: Scenario, expanded: set<Id>) {
    forall id :: id in sc.answerKey && id in expanded ==> BestLevel(RepsOf(sc, id)) != Some(Identity)
  }

  lemma {:induction false} NoneCounted(keys: seq<Id>, p: Id -> bool)
    requires forall id :: id in keys ==> !p(id)
    ensures Count(keys, p) == 0
  {
    if keys != [] {
      NoneCounted(keys[..|keys| - 1], p);
    }
  }

  /** V3 never recalls more than V2, and recall never falls along the escalation curve,
      when every answer V2 expands has a summary level or better. */
  lemma RecallMonotone(sc: Scenario, answers: map<Id, Level>, k: nat)
    requires AnswersHaveDepth(sc, Expanded(sc, ProgressiveV2))
    ensures RecallOf(sc, answers, Expanded(sc, ProgressiveV3)) <= RecallOf(sc, answers, Expanded(sc, ProgressiveV2))
    ensures RecallOf(sc, answers, TopK(sc, k)) <= RecallOf(sc, answers, TopK(sc, k + 1))
    ensures RecallOf(sc, answers, TopK(sc, k)) <= RecallOf(sc, answers, Expanded(sc, ProgressiveV2))
  {
    var v2 := Expanded(sc, ProgressiveV2);
    StrategiesFormAChain(sc, k);
    StrategiesFormAChain(sc, k + 1);
    StrategiesFormAChain(sc, 1);
    NoDemotion(sc, answers, Expanded(sc, ProgressiveV3), v2);
    NoDemotion(sc, answers, TopK(sc, k), TopK(sc, k + 1));
    NoDemotion(sc, answers, TopK(sc, k), v2);
  }

  lemma NoDemotion(sc: Scenario, answers: map<Id, Level>, fewer: set<Id>, more: set<Id>)
    requires fewer <= more <= Expanded(sc, ExhaustiveV1) && AnswersHaveDepth(sc, more)
    ensures RecallOf(sc, answers, fewer) <= RecallOf(sc, answers, more)
  {
    NoneCounted(sc.answerKey, id => Demoted(sc, answers, fewer, more, id));
    RecallBalance(sc, answers, fewer, more);
  }

  // ---- totals over scenarios ----

  function TotalRecall(scs: seq<Scenario>, answers: map<Id, Level>, strategy: Strategy): nat {
    if scs == [] then 0
    else
      var n := |scs| - 1;
      TotalRecall(scs[..n], answers, strategy) + RecallOf(scs[n], answers, Expanded(scs[n], strategy))
  }

  /** Answers that V2 expands to a bare identity and V3 does not expand. */
  function TotalDemoted(scs: seq<Scenario>, answers: map<Id, Level>): nat {
    if scs == [] then 0
    else
      var n := |scs| - 1;
      TotalDemoted(scs[..n], answers)
      + DemotedCount(scs[n], answers, Expanded(scs[n], ProgressiveV3), Expanded(scs[n], ProgressiveV2))
  }

  function TotalPromoted(scs: seq<Scenario>, answers: map<Id, Level>): nat {
    if scs == [] then 0
    else
      var n := |scs| - 1;
      TotalPromoted(scs[..n], answers)
      + PromotedCount(scs[n], answers, Expanded(scs[n], ProgressiveV3), Expanded(scs[n], ProgressiveV2))
  }

  /** Over all scenarios, V2 and V3 differ by what V2 promotes less what it demotes. */
  lemma {:induction false} TotalBalance(scs: seq<Scenario>, answers: map<Id, Level>)
    ensures TotalRecall(scs, answers, ProgressiveV2) + TotalDemoted(scs, answers)
            == TotalRecall(scs, answers, ProgressiveV3) + TotalPromoted(scs, answers)
  {
    if scs != [] {
      var n := |scs| - 1;
      TotalBalance(scs[..n], answers);
      StrategiesFormAChain(scs[n], 1);
      RecallBalance(scs[n], answers, Expanded(scs[n], ProgressiveV3), Expanded(scs[n], ProgressiveV2));
    }
  }

  lemma {:induction false} CountConcat(a: seq<Id>, b: seq<Id>, p: Id -> bool)
    ensures Count(a + b, p) == Count(a, p) + Count(b, p)
    ensures forall id :: Count([id], p) == if p(id) then 1 else 0
    decreases |b|
  {
    assert forall id: Id :: [id][..0] == [];
    if b == [] {
      assert a + b == a;
    } else {
      CountConcat(a, b[..|b| - 1], p);
      LastOfConcat(a, b);
    }
  }

  /** Total recall is the sum over scenarios. */
  lemma {:induction false} TotalRecallAdds(a: seq<Scenario>, b: seq<Scenario>, answers: map<Id, Level>, strategy: Strategy)
    ensures TotalRecall(a + b, answers, strategy)
            == TotalRecall(a, answers, strategy) + TotalRecall(b, answers, strategy)
    decreases |b|
  {
    hide RecallOf, Expanded;
    if b == [] {
      assert a + b == a;
    } else {
      TotalRecallAdds(a, b[..|b| - 1], answers, strategy);
      LastOfConcat(a, b);
    }
  }

  lemma TotalRecallOfOne(sc: Scenario, answers: map<Id, Level>, strategy: Strategy)
    ensures TotalRecall([sc], answers, strategy) == RecallOf(sc, answers, Expanded(sc, strategy))
  {
    hide RecallOf, Expanded;
    assert [sc][..0] == [];
  }

  method ComputeTotalRecall(scs: seq<Scenario>, answers: map<Id, Level>, strategy: Strategy) returns (total: nat)
    ensures total == TotalRecall(scs, answers, strategy)
  {
    hide RecallOf, Expanded;
    total := 0;
    for i := 0 to |scs|
      invariant total == TotalRecall(scs[..i], answers, strategy)
    {
      assert scs[..i + 1][..i] == scs[..i];
      var expanded := ExpandedIds(scs[i], strategy);
      var recall := DepthAwareRecall(scs[i], answers, expanded);
      total := total + recall;
    }
    assert scs[..|scs|] == scs;
  }
}
