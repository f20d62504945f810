/** Whether the escalating strategy is adopted, and why not. */
module Policies {
  import opened Common
  import opened Scenarios
  import opened Selection
  import opened Cost
  import opened Recall
  import opened Gate

  datatype Policy = Unpowered | Void | Adopted | LosesRecall | NotCheaper

  // ---- the census floor ----

  predicate CensusFloorOk(structured: nat, total: nat) {
    total != 0 && (structured * 14 >= 5 * total || structured >= 5)
  }

  /** The least number of structured answers that meets the floor: five, or five
      fourteenths of the total if that is less. Nothing meets it for a total of none. */
  lemma FloorIsALeastCount(structured: nat, total: nat)
    ensures CensusFloorOk(structured, total) <==> total > 0 && structured >= Min(5, CeilDiv(5 * total, 14))
    ensures CensusFloorOk(structured, total) ==> CensusFloorOk(structured + 1, total)
  {
    var least := CeilDiv(5 * total, 14);
    assert 14 * (least - 1) < 5 * total <= 14 * least;
  }

  /** Answers committed to at this level. */
  function Committed(answers: map<Id, Level>, level: Level): nat {
    |set id | id in answers && answers[id] == level|
  }

  function KeysAt(sc: Scenario, answers: map<Id, Level>, level: Level): nat {
    Count(sc.answerKey, id => id in answers && answers[id] == level)
  }

  /** Answer keys of the scenarios at this level. */
  function AsRun(scs: seq<Scenario>, answers: map<Id, Level>, level: Level): nat {
    if scs == [] then 0 else AsRun(scs[..|scs| - 1], answers, level) + KeysAt(scs[|scs| - 1], answers, level)
  }

  predicate FloorOk(scs: seq<Scenario>, answers: map<Id, Level>) {
    var summary, structured := Committed(answers, Summary), Committed(answers, Structured);
    var ranSummary, ranStructured := AsRun(scs, answers, Summary), AsRun(scs, answers, Structured);
    && CensusFloorOk(structured, summary + structured)
    && (ranSummary + ranStructured == summary + structured ==> CensusFloorOk(ranStructured, ranSummary + ranStructured))
  }

  /** The floor, by counts alone: met by the committed answers, and by those of the
      scenarios whenever there are as many of them. */
  lemma FloorIff(scs: seq<Scenario>, answers: map<Id, Level>)
    ensures var all := Committed(answers, Summary) + Committed(answers, Structured);
            FloorOk(scs, answers) <==>
              && all > 0 && Committed(answers, Structured) >= Min(5, CeilDiv(5 * all, 14))
              && (AsRun(scs, answers, Summary) + AsRun(scs, answers, Structured) == all ==>
                    AsRun(scs, answers, Structured) >= Min(5, CeilDiv(5 * all, 14)))
  {
    hide Committed, AsRun, CeilDiv;
    var all := Committed(answers, Summary) + Committed(answers, Structured);
    FloorIsALeastCount(Committed(answers, Structured), all);
    FloorIsALeastCount(AsRun(scs, answers, Structured), all);
    hide CensusFloorOk;
  }

  /** Each answer key counts once at its own level and nowhere else. */
  lemma KeysAtUnfold(sc: Scenario, answers: map<Id, Level>, level: Level)
    ensures KeysAt(sc, answers, level) ==
            if sc.answerKey == [] then 0
            else var n := |sc.answerKey| - 1;
                 KeysAt(sc.(answerKey := sc.answerKey[..n]), answers, level)
                 + if sc.answerKey[n] in answers && answers[sc.answerKey[n]] == level then 1 else 0
  {}

  /** The as-run counts are sums over scenarios. */
  lemma {:induction false} AsRunAdds(a: seq<Scenario>, b: seq<Scenario>, answers: map<Id, Level>, level: Level)
    ensures AsRun(a + b, answers, level) == AsRun(a, answers, level) + AsRun(b, answers, level)
    ensures forall sc :: AsRun([sc], answers, level) == KeysAt(sc, answers, level)
    decreases |b|
  {
    hide KeysAt;
    assert forall sc: Scenario :: [sc][..0] == [];
    if b == [] {
      assert a + b == a;
    } else {
      AsRunAdds(a, b[..|b| - 1], answers, level);
      LastOfConcat(a, b);
    }
  }

  // ---- the decision ----

  function Decide(floorOk: bool, recall3: nat, recall2: nat, paged3: nat, paged2: nat): Policy {
    if !floorOk then Unpowered
    else if recall3 > recall2 then Void
    else if recall3 == recall2 && paged3 < paged2 then Adopted
    else if recall3 != recall2 then LosesRecall
    else NotCheaper
  }

  ghost function PolicyOf(scs: seq<Scenario>, answers: map<Id, Level>): Policy {
    Decide(FloorOk(scs, answers),
           TotalRecall(scs, answers, ProgressiveV3), TotalRecall(scs, answers, ProgressiveV2),
           Totals(scs, ProgressiveV3, 4, 4).paged, Totals(scs, ProgressiveV2, 4, 4).paged)
  }

  /** Escalation never costs more than V2. */
  lemma {:induction false} EscalationNeverCostsMore(scs: seq<Scenario>, bpt: nat, overhead: nat)
    requires bpt > 0 && forall sc :: sc in scs ==> WellDigested(sc)
    ensures Totals(scs, ProgressiveV3, bpt, overhead).paged <= Totals(scs, ProgressiveV2, bpt, overhead).paged
  {
    if scs != [] {
      hide Paged, WellDigested, Baseline, PagedRecall, Calls;
      EscalationNeverCostsMore(scs[..|scs| - 1], bpt, overhead);
      EscalationCostChain(scs[|scs| - 1], 1, bpt, overhead);
    }
  }

  /** Each verdict, by what V2's larger expansion promotes and demotes. In particular the
      verdict the code calls impossible by construction is given exactly when the floor
      holds and V2 demotes more answers than it promotes. */
  lemma PolicyExplained(scs: seq<Scenario>, answers: map<Id, Level>)
    requires forall sc :: sc in scs ==> WellDigested(sc)
    ensures var policy := PolicyOf(scs, answers);
            var demoted, promoted := TotalDemoted(scs, answers), TotalPromoted(scs, answers);
            var cheaper := Totals(scs, ProgressiveV3, 4, 4).paged != Totals(scs, ProgressiveV2, 4, 4).paged;
            && (policy == Unpowered <==> !FloorOk(scs, answers))
            && (policy == Void <==> FloorOk(scs, answers) && demoted > promoted)
            && (policy == LosesRecall <==> FloorOk(scs, answers) && demoted < promoted)
            && (policy == Adopted <==> FloorOk(scs, answers) && demoted == promoted && cheaper)
            && (policy == NotCheaper <==> FloorOk(scs, answers) && demoted == promoted && !cheaper)
  {
    TotalBalance(scs, answers);
    EscalationNeverCostsMore(scs, 4, 4);
    hide Totals, TotalRecall, TotalDemoted, TotalPromoted, FloorOk, WellDigested;
  }

  // ---- the code ----

  method CountKeys(scs: seq<Scenario>, answers: map<Id, Level>) returns (summary: nat, structured: nat)
    ensures summary == AsRun(scs, answers, Summary) && structured == AsRun(scs, answers, Structured)
  {
    summary, structured := 0, 0;
    for i := 0 to |scs|
      invariant summary == AsRun(scs[..i], answers, Summary)
      invariant structured == AsRun(scs[..i], answers, Structured)
    {
      assert scs[..i + 1][..i] == scs[..i];
      var inSummary, inStructured := CountKeysOf(scs[i], answers);
      summary, structured := summary + inSummary, structured + inStructured;
    }
    assert scs[..|scs|] == scs;
  }

  method CountKeysOf(sc: Scenario, answers: map<Id, Level>) returns (summary: nat, structured: nat)
    ensures summary == KeysAt(sc, answers, Summary) && structured == KeysAt(sc, answers, Structured)
  {
    ghost var atSummary := id => id in answers && answers[id] == Summary;
    ghost var atStructured := id => id in answers && answers[id] == Structured;
    summary, structured := 0, 0;
    for i := 0 to |sc.answerKey|
      invariant summary == Count(sc.answerKey[..i], atSummary)
      invariant structured == Count(sc.answerKey[..i], atStructured)
    {
      assert sc.answerKey[..i + 1][..i] == sc.answerKey[..i];
      var id := sc.answerKey[i];
      if id in answers {
        if answers[id] == Summary {
          summary := summary + 1;
        } else if answers[id] == Structured {
          structured := structured + 1;
        }
      }
    }
    assert sc.answerKey[..|sc.answerKey|] == sc.answerKey;
  }

  method ComputeFloor(scs: seq<Scenario>, answers: map<Id, Level>) returns (ok: bool)
    ensures ok == FloorOk(scs, answers)
  {
    var summary, structured := Committed(answers, Summary), Committed(answers, Structured);
    var ranSummary, ranStructured := CountKeys(scs, answers);
    if ranSummary + ranStructured != summary + structured {
      ranSummary, ranStructured := summary, structured;
    }
    ok := CensusFloorOk(structured, summary + structured) && CensusFloorOk(ranStructured, ranSummary + ranStructured);
  }

  /** The policy part of `run_benchmark`. */
  method ChoosePolicy(scs: seq<Scenario>, answers: map<Id, Level>) returns (policy: Policy)
    requires forall sc :: sc in scs ==> WellDigested(sc)
    ensures policy == PolicyOf(scs, answers)
  {
    hide FloorOk, TotalRecall, Totals;
    var v2 := RunStrategy(scs, ProgressiveV2);
    var v3 := RunStrategy(scs, ProgressiveV3);
    var recall2 := ComputeTotalRecall(scs, answers, ProgressiveV2);
    var recall3 := ComputeTotalRecall(scs, answers, ProgressiveV3);
    var floorOk := ComputeFloor(scs, answers);
    policy := Decide(floorOk, recall3, recall2, v3.paged, v2.paged);
  }
}
