/** The GO gate: totals over scenarios, the decomposition of savings, the nine-cell
    sensitivity sweep and the verdict. */
module Gate {
  import opened Common
  import opened Ordering
  import opened Scenarios
  import opened Selection
  import opened Neighbors
  import opened Cost
  import opened Recall

  datatype Aggregate = Aggregate(baseline: nat, paged: nat, key: nat, recall: nat, calls: nat)

  // ---- per scenario ----

  function DeepAll(sc: Scenario, nodes: seq<Node>, bpt: nat): nat
    requires bpt > 0
  {
    if nodes == [] then 0
    else
      var before := DeepAll(sc, nodes[..|nodes| - 1], bpt);
      var reps := RepsOf(sc, nodes[|nodes| - 1].id);
      match DeepestLevel(reps)
      case None => before
      case Some(level) => SatAdd(before, CeilDiv(|FindRep(reps, level).value.content|, bpt))
  }

  function Baseline(sc: Scenario, bpt: nat): nat
    requires bpt > 0
  {
    DeepAll(sc, sc.nodes, bpt)
  }

  function PagedRecall(sc: Scenario, strategy: Strategy): nat {
    Count(sc.answerKey, id => id in HitIds(sc) && id in Expanded(sc, strategy) && Expandable(sc, id))
  }

  /** `compute_paged(dedup, expand_all)`. The expand loop visits the expanded set in
      ascending order, not in hit order. */
  ghost function Variant(sc: Scenario, dedup: bool, expandAll: bool, bpt: nat, overhead: nat): nat
    requires bpt > 0
  {
    var strategy := if expandAll then ExhaustiveV1 else ProgressiveV2;
    var ids := Expanded(sc, strategy);
    Bill(sc, Neighbours(sc, strategy), InOrder(ids), ids, dedup, bpt, overhead)
  }

  ghost function Saved(sc: Scenario, bpt: nat, overhead: nat): nat
    requires bpt > 0
  {
    SatSub(Baseline(sc, bpt), Variant(sc, false, false, bpt, overhead))
  }

  ghost function RerankSaved(sc: Scenario, bpt: nat, overhead: nat): nat
    requires bpt > 0
  {
    SatSub(Variant(sc, true, true, bpt, overhead), Variant(sc, false, false, bpt, overhead))
  }

  // ---- totals ----

  ghost function Totals(scs: seq<Scenario>, strategy: Strategy, bpt: nat, overhead: nat): Aggregate
    requires bpt > 0
  {
    if scs == [] then Aggregate(0, 0, 0, 0, 0)
    else
      var t, sc := Totals(scs[..|scs| - 1], strategy, bpt, overhead), scs[|scs| - 1];
      Aggregate(SatAdd(t.baseline, Baseline(sc, bpt)),
                SatAdd(t.paged, Paged(sc, strategy, bpt, overhead)),
                SatAdd(t.key, |sc.answerKey|),
                SatAdd(t.recall, PagedRecall(sc, strategy)),
                SatAdd(t.calls, Sat(Calls(sc, strategy))))
  }

  ghost function TotalSaved(scs: seq<Scenario>, bpt: nat, overhead: nat): nat
    requires bpt > 0
  {
    if scs == [] then 0
    else SatAdd(TotalSaved(scs[..|scs| - 1], bpt, overhead), Saved(scs[|scs| - 1], bpt, overhead))
  }

  ghost function TotalRerank(scs: seq<Scenario>, bpt: nat, overhead: nat): nat
    requires bpt > 0
  {
    if scs == [] then 0
    else SatAdd(TotalRerank(scs[..|scs| - 1], bpt, overhead), RerankSaved(scs[|scs| - 1], bpt, overhead))
  }

  ghost predicate RecallParity(scs: seq<Scenario>) {
    var t := Totals(scs, ProgressiveV2, 4, 4);
    t.recall == t.key
  }

  ghost predicate Margin(scs: seq<Scenario>, bpt: nat, overhead: nat)
    requires bpt > 0
  {
    var t := Totals(scs, ProgressiveV2, bpt, overhead);
    Sat(t.paged * 2) < t.baseline
  }

  // ---- what the parameters can change ----

  /** The estimator parameters do not reach recall; a larger overhead only raises the
      price, and the baseline has no overhead at all. */
  lemma {:induction false} ParametersReach(scs: seq<Scenario>, strategy: Strategy, bpt: nat, overhead: nat,
                                          bpt': nat, overhead': nat)
    requires bpt > 0 && bpt' > 0
    ensures var t, t' := Totals(scs, strategy, bpt, overhead), Totals(scs, strategy, bpt', overhead');
            && t.recall == t'.recall && t.key == t'.key && t.calls == t'.calls
            && (bpt == bpt' ==> t.baseline == t'.baseline)
            && (bpt == bpt' && overhead <= overhead' ==> t.paged <= t'.paged)
  {
    if scs != [] {
      var sc := scs[|scs| - 1];
      ParametersReach(scs[..|scs| - 1], strategy, bpt, overhead, bpt', overhead');
      if bpt == bpt' && overhead <= overhead' {
        PriceMonotone(SurfacedBytes(sc, strategy), SurfacedBytes(sc, strategy), Calls(sc, strategy),
                      Calls(sc, strategy), bpt, overhead, overhead');
      }
    }
  }

  /** Twice the price is below the baseline; saturation makes no difference. */
  lemma MarginIff(scs: seq<Scenario>, bpt: nat, overhead: nat)
    requires bpt > 0
    ensures var t := Totals(scs, ProgressiveV2, bpt, overhead);
            Margin(scs, bpt, overhead) <==> t.paged + t.paged < t.baseline
  {
    TotalsFit(scs, ProgressiveV2, bpt, overhead);
    hide Totals;
  }

  lemma MarginAntitone(scs: seq<Scenario>, bpt: nat, overhead: nat, overhead': nat)
    requires bpt > 0 && overhead <= overhead' && Margin(scs, bpt, overhead')
    ensures Margin(scs, bpt, overhead)
  {
    ParametersReach(scs, ProgressiveV2, bpt, overhead, bpt, overhead');
  }

  datatype Cell = Cell(bpt: nat, overhead: nat, recallOk: bool, marginOk: bool, dedupOk: bool)

  function CellBpt(i: nat): nat {
    if i < 3 then 3 else if i < 6 then 4 else 5
  }

  function CellOverhead(i: nat): nat {
    if i == 0 || i == 3 || i == 6 then 0
    else if i == 1 || i == 4 || i == 7 then 8
    else 16
  }

  lemma SweepOfAntitone(margin: (nat, nat) -> bool)
    requires forall bpt, low, high :: low <= high && margin(bpt, high) ==> margin(bpt, low)
    ensures (forall i :: 0 <= i < 9 ==> margin(CellBpt(i), CellOverhead(i))) <==>
              margin(3, 16) && margin(4, 16) && margin(5, 16)
  {
    if forall i :: 0 <= i < 9 ==> margin(CellBpt(i), CellOverhead(i)) {
      assert margin(CellBpt(2), CellOverhead(2)) && margin(CellBpt(5), CellOverhead(5));
      assert margin(CellBpt(8), CellOverhead(8));
    }
  }

  /** The cells are the grid of 3, 4 and 5 bytes per token by 0, 8 and 16 overhead. */
  lemma CellsAreTheGrid(bpt: nat, overhead: nat)
    ensures (exists i :: 0 <= i < 9 && CellBpt(i) == bpt && CellOverhead(i) == overhead) <==>
              bpt in {3, 4, 5} && overhead in {0, 8, 16}
    ensures forall i, j :: 0 <= i < j < 9 ==> CellBpt(i) != CellBpt(j) || CellOverhead(i) != CellOverhead(j)
  {
    if bpt in {3, 4, 5} && overhead in {0, 8, 16} {
      var i := 3 * (bpt - 3) + overhead / 8;
      assert CellBpt(i) == bpt && CellOverhead(i) == overhead;
    }
  }

  // ---- totals are sums over scenarios ----

  function Plus(a: Aggregate, b: Aggregate): Aggregate {
    Aggregate(SatAdd(a.baseline, b.baseline), SatAdd(a.paged, b.paged), SatAdd(a.key, b.key),
              SatAdd(a.recall, b.recall), SatAdd(a.calls, b.calls))
  }

  lemma PlusAssociates(a: Aggregate, b: Aggregate, c: Aggregate)
    ensures Plus(Plus(a, b), c) == Plus(a, Plus(b, c))
  {
    hide SatAdd;
    SatAssociates(a.baseline, b.baseline, c.baseline);
    SatAssociates(a.paged, b.paged, c.paged);
    SatAssociates(a.key, b.key, c.key);
    SatAssociates(a.recall, b.recall, c.recall);
    SatAssociates(a.calls, b.calls, c.calls);
  }

  lemma PlusZero(t: Aggregate)
    requires t.baseline <= MAX_USIZE && t.paged <= MAX_USIZE && t.key <= MAX_USIZE && t.recall <= MAX_USIZE
             && t.calls <= MAX_USIZE
    ensures Plus(t, Aggregate(0, 0, 0, 0, 0)) == t
  {}

  ghost function Figures(sc: Scenario, strategy: Strategy, bpt: nat, overhead: nat): Aggregate
    requires bpt > 0
  {
    Aggregate(Baseline(sc, bpt), Paged(sc, strategy, bpt, overhead), |sc.answerKey|, PagedRecall(sc, strategy),
              Sat(Calls(sc, strategy)))
  }

  lemma TotalsUnfold(scs: seq<Scenario>, strategy: Strategy, bpt: nat, overhead: nat)
    requires bpt > 0 && scs != []
    ensures Totals(scs, strategy, bpt, overhead) ==
            Plus(Totals(scs[..|scs| - 1], strategy, bpt, overhead), Figures(scs[|scs| - 1], strategy, bpt, overhead))
  {
    hide Paged, Baseline, PagedRecall, Calls, SatAdd;
  }

  lemma TotalsOfNone(strategy: Strategy, bpt: nat, overhead: nat)
    requires bpt > 0
    ensures Totals([], strategy, bpt, overhead) == Aggregate(0, 0, 0, 0, 0)
    ensures TotalSaved([], bpt, overhead) == 0 == TotalRerank([], bpt, overhead)
  {}

  /** The totals of two lists of scenarios together are the totals of each, added. */
  lemma {:induction false} TotalsAdd(a: seq<Scenario>, b: seq<Scenario>, strategy: Strategy, bpt: nat, overhead: nat)
    requires bpt > 0
    ensures Totals(a + b, strategy, bpt, overhead) ==
            Plus(Totals(a, strategy, bpt, overhead), Totals(b, strategy, bpt, overhead))
    decreases |b|
  {
    hide *;
    if b == [] {
      assert a + b == a;
      TotalsOfNone(strategy, bpt, overhead);
      TotalsFit(a, strategy, bpt, overhead);
      PlusZero(Totals(a, strategy, bpt, overhead));
    } else {
      var n := |b| - 1;
      TotalsAdd(a, b[..n], strategy, bpt, overhead);
      LastOfConcat(a, b);
      TotalsUnfold(a + b, strategy, bpt, overhead);
      TotalsUnfold(b, strategy, bpt, overhead);
      PlusAssociates(Totals(a, strategy, bpt, overhead), Totals(b[..n], strategy, bpt, overhead),
                     Figures(b[n], strategy, bpt, overhead));
    }
  }

  lemma SavingsUnfold(scs: seq<Scenario>, bpt: nat, overhead: nat)
    requires bpt > 0 && scs != []
    ensures var front, last := scs[..|scs| - 1], scs[|scs| - 1];
            && TotalSaved(scs, bpt, overhead) == SatAdd(TotalSaved(front, bpt, overhead), Saved(last, bpt, overhead))
            && TotalRerank(scs, bpt, overhead) == SatAdd(TotalRerank(front, bpt, overhead), RerankSaved(last, bpt, overhead))
  {
    hide Saved, RerankSaved, SatAdd;
  }

  lemma {:induction false} SavingsAdd(a: seq<Scenario>, b: seq<Scenario>, bpt: nat, overhead: nat)
    requires bpt > 0
    ensures TotalSaved(a + b, bpt, overhead) == SatAdd(TotalSaved(a, bpt, overhead), TotalSaved(b, bpt, overhead))
    ensures TotalRerank(a + b, bpt, overhead) == SatAdd(TotalRerank(a, bpt, overhead), TotalRerank(b, bpt, overhead))
    decreases |b|
  {
    if b == [] {
      hide Saved, RerankSaved, TotalSaved, TotalRerank;
      assert a + b == a;
      TotalsOfNone(ProgressiveV2, bpt, overhead);
      TotalsFit(a, ProgressiveV2, bpt, overhead);
    } else {
      hide *;
      var n := |b| - 1;
      SavingsAdd(a, b[..n], bpt, overhead);
      LastOfConcat(a, b);
      SavingsUnfold(a + b, bpt, overhead);
      SavingsUnfold(b, bpt, overhead);
      SatAssociates(TotalSaved(a, bpt, overhead), TotalSaved(b[..n], bpt, overhead), Saved(b[n], bpt, overhead));
      SatAssociates(TotalRerank(a, bpt, overhead), TotalRerank(b[..n], bpt, overhead), RerankSaved(b[n], bpt, overhead));
    }
  }

  lemma {:induction false} TotalsFit(scs: seq<Scenario>, strategy: Strategy, bpt: nat, overhead: nat)
    requires bpt > 0
    ensures var t := Totals(scs, strategy, bpt, overhead);
            t.baseline <= MAX_USIZE && t.paged <= MAX_USIZE && t.key <= MAX_USIZE && t.recall <= MAX_USIZE
            && t.calls <= MAX_USIZE
    ensures TotalSaved(scs, bpt, overhead) <= MAX_USIZE && TotalRerank(scs, bpt, overhead) <= MAX_USIZE
  {
    hide Paged, Baseline, PagedRecall, Calls, Saved, RerankSaved;
    if scs != [] {
      TotalsFit(scs[..|scs| - 1], strategy, bpt, overhead);
    }
  }

  /** One scenario contributes its own figures. */
  lemma TotalsOfOne(sc: Scenario, strategy: Strategy, bpt: nat, overhead: nat)
    requires bpt > 0
    ensures Totals([sc], strategy, bpt, overhead) ==
            Aggregate(Sat(Baseline(sc, bpt)), Sat(Paged(sc, strategy, bpt, overhead)), Sat(|sc.answerKey|),
                      Sat(PagedRecall(sc, strategy)), Sat(Calls(sc, strategy)))
    ensures TotalSaved([sc], bpt, overhead) == Sat(Saved(sc, bpt, overhead))
    ensures TotalRerank([sc], bpt, overhead) == Sat(RerankSaved(sc, bpt, overhead))
  {
    hide Baseline, Paged, PagedRecall, Calls, Saved, RerankSaved;
    assert [sc][..0] == [];
  }

  // ---- recall parity ----

  function KeyTotal(scs: seq<Scenario>): nat {
    if scs == [] then 0 else KeyTotal(scs[..|scs| - 1]) + |scs[|scs| - 1].answerKey|
  }

  /** The answer is found by the search, V2 expands it and it has a level to expand to. */
  predicate Answered(sc: Scenario, id: Id) {
    (exists h :: h in sc.hits && h.id == id) && id in Expanded(sc, ProgressiveV2) && Expandable(sc, id)
  }

  lemma {:induction false} CountIsFull(keys: seq<Id>, p: Id -> bool)
    ensures Count(keys, p) <= |keys|
    ensures Count(keys, p) == |keys| <==> forall id :: id in keys ==> p(id)
  {
    if keys != [] {
      var front, last := keys[..|keys| - 1], keys[|keys| - 1];
      assert keys == front + [last];
      CountIsFull(front, p);
    }
  }

  lemma AllAnsweredIff(sc: Scenario)
    ensures PagedRecall(sc, ProgressiveV2) <= |sc.answerKey|
    ensures PagedRecall(sc, ProgressiveV2) == |sc.answerKey| <==> forall id :: id in sc.answerKey ==> Answered(sc, id)
  {
    hide Expanded, Expandable;
    var p := id => id in HitIds(sc) && id in Expanded(sc, ProgressiveV2) && Expandable(sc, id);
    CountIsFull(sc.answerKey, p);
    forall id ensures p(id) <==> Answered(sc, id) {}
  }

  lemma {:induction false} RecallIsFullIff(scs: seq<Scenario>)
    requires KeyTotal(scs) <= MAX_USIZE
    ensures var t := Totals(scs, ProgressiveV2, 4, 4);
            && t.key == KeyTotal(scs) && t.recall <= t.key
            && (t.recall == t.key <==> forall sc, id :: sc in scs && id in sc.answerKey ==> Answered(sc, id))
  {
    hide Paged, Baseline, PagedRecall, Calls, Answered;
    if scs != [] {
      var front, last := scs[..|scs| - 1], scs[|scs| - 1];
      assert scs == front + [last];
      RecallIsFullIff(front);
      AllAnsweredIff(last);
    }
  }

  /** Recall parity: every answer of every scenario is found, expanded by V2 and has a
      level, as long as the number of answers fits a `usize`. */
  lemma ParityIff(scs: seq<Scenario>)
    requires KeyTotal(scs) <= MAX_USIZE
    ensures RecallParity(scs) <==> forall sc, id :: sc in scs && id in sc.answerKey ==> Answered(sc, id)
  {
    hide Totals, Answered;
    RecallIsFullIff(scs);
  }

  /** The dedup guard fails exactly when the per-scenario savings do not add up to the
      aggregate and the aggregate is positive but below the rerank savings. */
  ghost predicate GuardHolds(scs: seq<Scenario>) {
    var t := Totals(scs, ProgressiveV2, 4, 4);
    var aggregate := SatSub(t.baseline, t.paged);
    TotalSaved(scs, 4, 4) == aggregate || aggregate == 0 || TotalRerank(scs, 4, 4) <= aggregate
  }

  /** The guard refuses exactly when the savings of the scenarios do not add up to those of
      the whole, and the whole saves something, but less than reranking alone. */
  lemma GuardRefusesIff(scs: seq<Scenario>)
    ensures var t := Totals(scs, ProgressiveV2, 4, 4);
            !GuardHolds(scs) <==>
              && t.baseline > t.paged
              && t.baseline - t.paged < TotalRerank(scs, 4, 4)
              && TotalSaved(scs, 4, 4) != t.baseline - t.paged
  {
    hide Totals, TotalSaved, TotalRerank;
  }

  ghost predicate DistinctHits(sc: Scenario) {
    forall i, j :: 0 <= i < j < |sc.hits| ==> sc.hits[i].id != sc.hits[j].id
  }

  /** When no node is hit twice, the decomposition's variants are runs: deduplicated V2 is
      the V2 run, and expanding everything plainly is the V1 run, although they visit in
      another order. */
  lemma VariantsAreRuns(sc: Scenario, bpt: nat, overhead: nat)
    requires bpt > 0 && DistinctHits(sc)
    ensures Variant(sc, true, false, bpt, overhead) == Paged(sc, ProgressiveV2, bpt, overhead)
    ensures Variant(sc, false, true, bpt, overhead) == Paged(sc, ExhaustiveV1, bpt, overhead)
  {
    hide Expanded, Neighbours, InspectSet, InspectSum, ExpandSet, ExpandSum, ExpandCount, SumLen, Price;
    SameExpansion(sc, ProgressiveV2);
    SameExpansion(sc, ExhaustiveV1);
    PagedIsBilled(sc, ProgressiveV2, bpt, overhead);
    PagedIsBilled(sc, ExhaustiveV1, bpt, overhead);
  }

  lemma SameExpansion(sc: Scenario, strategy: Strategy)
    requires DistinctHits(sc)
    ensures var ids := Expanded(sc, strategy);
            && ExpandSum(sc, InOrder(ids), ids) == ExpandSum(sc, HitSeq(sc), ids)
            && ExpandCount(sc, InOrder(ids), ids) == ExpandCount(sc, HitSeq(sc), ids)
            && ExpandSet(sc, InOrder(ids), ids) == ExpandSet(sc, HitSeq(sc), ids)
  {
    StrategiesFormAChain(sc, 1);
    HitSeqMembers(sc);
    hide InOrder, ExpandSum, ExpandCount, ExpandSet, TopK, Pool;
    var ids, order := Expanded(sc, strategy), InOrder(Expanded(sc, strategy));
    ExpandedAreHits(sc, strategy);
    forall id ensures id in Elements(order) * ids <==> id in Elements(HitSeq(sc)) * ids {}
    assert Distinctly(order) && Distinctly(HitSeq(sc));
    OrderOfExpansion(sc, order, HitSeq(sc), ids);
  }

  lemma ExpandedAreHits(sc: Scenario, strategy: Strategy)
    ensures forall id :: id in Expanded(sc, strategy) ==> exists h :: h in sc.hits && h.id == id
  {
    StrategiesFormAChain(sc, 1);
    hide TopK, Pool, Expandable;
    assert Expanded(sc, strategy) <= Expanded(sc, ExhaustiveV1);
  }

  // ---- the code ----

  method ComputeDeepAll(sc: Scenario, bpt: nat) returns (tokens: nat)
    requires bpt > 0
    ensures tokens == Baseline(sc, bpt)
  {
    tokens := 0;
    for i := 0 to |sc.nodes|
      invariant tokens == DeepAll(sc, sc.nodes[..i], bpt)
    {
      assert sc.nodes[..i + 1][..i] == sc.nodes[..i];
      var reps := RepsOf(sc, sc.nodes[i].id);
      var level := DeepestLevel(reps);
      if level.Some? {
        tokens := SatAdd(tokens, CeilDiv(|FindRep(reps, level.value).value.content|, bpt));
      }
    }
    assert sc.nodes[..|sc.nodes|] == sc.nodes;
  }

  method ComputeRecall(sc: Scenario, strategy: Strategy, expanded: set<Id>) returns (recall: nat)
    requires expanded == Expanded(sc, strategy)
    ensures recall == PagedRecall(sc, strategy)
  {
    recall := 0;
    ghost var p := id => id in HitIds(sc) && id in Expanded(sc, strategy) && Expandable(sc, id);
    for i := 0 to |sc.answerKey|
      invariant recall == Count(sc.answerKey[..i], p)
    {
      assert sc.answerKey[..i + 1][..i] == sc.answerKey[..i];
      var id := sc.answerKey[i];
      if id in HitIds(sc) && id in expanded && Expandable(sc, id) {
        recall := recall + 1;
      }
    }
    assert sc.answerKey[..|sc.answerKey|] == sc.answerKey;
  }

  /** `run_strategy`: the totals of `run_strategy_with` at 4 bytes and 4 overhead. */
  method RunStrategy(scs: seq<Scenario>, strategy: Strategy) returns (t: Aggregate)
    requires forall sc :: sc in scs ==> WellDigested(sc)
    ensures t == Totals(scs, strategy, 4, 4)
  {
    hide Paged, Baseline, PagedRecall, Calls, Expanded;
    t := Aggregate(0, 0, 0, 0, 0);
    for i := 0 to |scs|
      invariant t == Totals(scs[..i], strategy, 4, 4)
    {
      assert scs[..i + 1][..i] == scs[..i];
      var sc := scs[i];
      var baseline := ComputeDeepAll(sc, 4);
      var expanded := ExpandedIds(sc, strategy);
      var paged, calls := RunBranches(sc, strategy, expanded);
      var recall := ComputeRecall(sc, strategy, expanded);
      t := Aggregate(SatAdd(t.baseline, baseline), SatAdd(t.paged, paged), SatAdd(t.key, |sc.answerKey|),
                     SatAdd(t.recall, recall), SatAdd(t.calls, calls));
    }
    assert scs[..|scs|] == scs;
  }

  /** `run_strategy_with`. */
  method RunStrategyWith(scs: seq<Scenario>, strategy: Strategy, bpt: nat, overhead: nat) returns (t: Aggregate)
    requires bpt > 0 && forall sc :: sc in scs ==> WellDigested(sc)
    ensures t == Totals(scs, strategy, bpt, overhead)
  {
    hide Paged, Baseline, PagedRecall, Calls, Expanded;
    t := Aggregate(0, 0, 0, 0, 0);
    for i := 0 to |scs|
      invariant t == Totals(scs[..i], strategy, bpt, overhead)
    {
      assert scs[..i + 1][..i] == scs[..i];
      var sc := scs[i];
      var baseline := ComputeDeepAll(sc, bpt);
      var expanded := ExpandedIds(sc, strategy);
      var paged, calls := RunPaged(sc, strategy, expanded, bpt, overhead);
      var recall := ComputeRecall(sc, strategy, expanded);
      t := Aggregate(SatAdd(t.baseline, baseline), SatAdd(t.paged, paged), SatAdd(t.key, |sc.answerKey|),
                     SatAdd(t.recall, recall), SatAdd(t.calls, calls));
    }
    assert scs[..|scs|] == scs;
  }

  method ComputePaged(sc: Scenario, dedup: bool, expandAll: bool, bpt: nat, overhead: nat) returns (tokens: nat)
    requires bpt > 0 && WellDigested(sc)
    ensures tokens == Variant(sc, dedup, expandAll, bpt, overhead)
  {
    var strategy := if expandAll then ExhaustiveV1 else ProgressiveV2;
    var expanded := ExpandedIds(sc, strategy);
    var neighbours := FindNeighbours(sc, strategy, expanded);
    var order := ListInOrder(expanded);
    var calls;
    tokens, calls := RunLoops(sc, neighbours, order, expanded, dedup, bpt, overhead);
  }

  /** The inlined copy: the V2 selection written out again, and plain sums. It is
      proved to agree with `compute_paged(false, false)`. */
  method CostNoDedup(sc: Scenario, bpt: nat, overhead: nat) returns (tokens: nat)
    requires bpt > 0
    ensures tokens == Variant(sc, false, false, bpt, overhead)
  {
    var expanded := InlinedSelection(sc);
    var candidates, generated := NeighborCandidates(sc, expanded);
    var order := ListInOrder(expanded);
    tokens := InlinedSums(sc, IdSeq(candidates), order, expanded, bpt, overhead);
  }

  method InlinedSums(sc: Scenario, neighbours: seq<Id>, order: seq<Id>, expanded: set<Id>, bpt: nat, overhead: nat)
    returns (tokens: nat)
    requires bpt > 0
    ensures tokens == Bill(sc, neighbours, order, expanded, false, bpt, overhead)
  {
    var ids := HitSeq(sc);
    var t1 := Inspect(sc, ids, false, {});
    var t2 := Inspect(sc, neighbours, false, {});
    var t3, count := Expand(sc, order, expanded, false, {});
    InspectedPlain(sc, ids, Tally(0, {}));
    InspectedPlain(sc, neighbours, Tally(0, {}));
    PlainLoops(sc, ids, neighbours, order, expanded);
    var calls := CountCalls(|sc.hits|, |neighbours|, count);
    tokens := PriceTallies(t1, t2, t3, calls, bpt, overhead);
  }

  method InlinedSelection(sc: Scenario) returns (expanded: set<Id>)
    ensures expanded == Expanded(sc, ProgressiveV2)
  {
    var threshold := Min(2, |sc.tokenize(sc.query)|);
    expanded := {};
    for i := 0 to |sc.hits|
      invariant expanded == set h | h in sc.hits[..i] && Passing(sc, h) :: h.id
    {
      var h := sc.hits[i];
      if h.matched == "summary" && Overlap(sc, h.id) >= threshold && Expandable(sc, h.id) {
        expanded := expanded + {h.id};
      }
    }
    assert sc.hits[..|sc.hits|] == sc.hits;
    CandidatesArePassing(sc, sc.hits);
    NonEmptyHasIds(Candidates(sc, sc.hits));
    if expanded == {} {
      var best := BestEligible(sc);
      expanded := if best.None? then {} else {best.value.id};
    }
  }

  /** `compute_decomposition_for_scenario`. What it reports as saved by deduplication
      is always nothing: both costs it compares were computed without it. */
  method Decompose(sc: Scenario, bpt: nat, overhead: nat) returns (dedup: nat, rerank: nat, level: nat, total: nat)
    requires bpt > 0 && WellDigested(sc)
    ensures dedup == 0
    ensures rerank == RerankSaved(sc, bpt, overhead)
    ensures total == Saved(sc, bpt, overhead)
    ensures level == SatSub(total, rerank)
  {
    var baseline := ComputeDeepAll(sc, bpt);
    var actual := ComputePaged(sc, false, false, bpt, overhead);
    var costNoDedup := CostNoDedup(sc, bpt, overhead);
    var costAllHits := ComputePaged(sc, true, true, bpt, overhead);
    total := SatSub(baseline, actual);
    dedup := SatSub(costNoDedup, actual);
    rerank := SatSub(costAllHits, actual);
    level := if total >= dedup + rerank then total - dedup - rerank else 0;
  }

  method DecomposeAll(scs: seq<Scenario>, bpt: nat, overhead: nat) returns (dedup: nat, rerank: nat, total: nat)
    requires bpt > 0 && forall sc :: sc in scs ==> WellDigested(sc)
    ensures dedup == 0 && rerank == TotalRerank(scs, bpt, overhead) && total == TotalSaved(scs, bpt, overhead)
  {
    dedup, rerank, total := 0, 0, 0;
    for i := 0 to |scs|
      invariant dedup == 0
      invariant rerank == TotalRerank(scs[..i], bpt, overhead) && total == TotalSaved(scs[..i], bpt, overhead)
    {
      assert scs[..i + 1][..i] == scs[..i];
      var d, r, l, t := Decompose(scs[i], bpt, overhead);
      dedup, rerank, total := SatAdd(dedup, d), SatAdd(rerank, r), SatAdd(total, t);
    }
    assert scs[..|scs|] == scs;
  }

  method RunCell(scs: seq<Scenario>, bpt: nat, overhead: nat) returns (cell: Cell)
    requires bpt > 0 && forall sc :: sc in scs ==> WellDigested(sc)
    ensures cell == Cell(bpt, overhead, RecallParity(scs), Margin(scs, bpt, overhead), true)
  {
    var t := RunStrategyWith(scs, ProgressiveV2, bpt, overhead);
    var dedup, rerank, total := DecomposeAll(scs, bpt, overhead);
    var aggregate := SatSub(t.baseline, t.paged);
    if total != aggregate {
      total := aggregate;
    }
    ParametersReach(scs, ProgressiveV2, bpt, overhead, 4, 4);
    cell := Cell(bpt, overhead, t.recall == t.key, Sat(t.paged * 2) < t.baseline, total == 0 || dedup * 2 <= total);
  }

  datatype Report = Report(go: bool, allOk: bool, guardOk: bool, cells: seq<Cell>)

  /** Scenarios that gate: all but the informational one. */
  function Gated(scenarios: seq<Scenario>): seq<Scenario> {
    if scenarios == [] then []
    else (if scenarios[0].name != "paraphrase-gap" then [scenarios[0]] else []) + Gated(scenarios[1..])
  }

  lemma GatedAreGiven(scenarios: seq<Scenario>)
    ensures forall sc :: sc in Gated(scenarios) ==> sc in scenarios
  {}

  lemma {:induction false} GatedConcat(a: seq<Scenario>, b: seq<Scenario>)
    ensures Gated(a + b) == Gated(a) + Gated(b)
  {
    if a == [] {
      assert a + b == b;
    } else {
      GatedConcat(a[1..], b);
      assert (a + b)[1..] == a[1..] + b && (a + b)[0] == a[0];
    }
  }

  /** Gating keeps every scenario but the informational one, as often as it is given. */
  lemma {:induction false} GatedKeepsTheRest(scenarios: seq<Scenario>, sc: Scenario)
    ensures multiset(Gated(scenarios))[sc] == if sc.name != "paraphrase-gap" then multiset(scenarios)[sc] else 0
  {
    if scenarios != [] {
      GatedKeepsTheRest(scenarios[1..], sc);
      assert scenarios == [scenarios[0]] + scenarios[1..];
    }
  }

  /** The cells of a sweep, given recall parity and a margin test. */
  ghost function CellsOf(parity: bool, margin: (nat, nat) -> bool): (cells: seq<Cell>)
    ensures |cells| == 9
    ensures forall i :: 0 <= i < 9 ==>
              cells[i] == Cell(CellBpt(i), CellOverhead(i), parity, margin(CellBpt(i), CellOverhead(i)), true)
  {
    seq(9, i requires 0 <= i < 9 =>
      Cell(CellBpt(i), CellOverhead(i), parity, margin(CellBpt(i), CellOverhead(i)), true))
  }

  ghost function MarginTest(scs: seq<Scenario>): (nat, nat) -> bool {
    (bpt: nat, overhead: nat) => bpt > 0 && Margin(scs, bpt, overhead)
  }

  ghost function Cells(scs: seq<Scenario>): seq<Cell> {
    CellsOf(RecallParity(scs), MarginTest(scs))
  }

  predicate Passes(cell: Cell) {
    cell.recallOk && cell.marginOk && cell.dedupOk
  }

  method RunCellAt(scs: seq<Scenario>, i: nat) returns (cell: Cell)
    requires i < 9 && forall sc :: sc in scs ==> WellDigested(sc)
    ensures cell == Cells(scs)[i]
  {
    cell := RunCell(scs, CellBpt(i), CellOverhead(i));
    assert MarginTest(scs)(CellBpt(i), CellOverhead(i)) == Margin(scs, CellBpt(i), CellOverhead(i));
  }

  /** The nine cells. */
  method Sweep(scs: seq<Scenario>) returns (cells: seq<Cell>, allOk: bool)
    requires forall sc :: sc in scs ==> WellDigested(sc)
    ensures cells == Cells(scs)
    ensures allOk <==> forall i :: 0 <= i < 9 ==> Passes(Cells(scs)[i])
  {
    hide Paged, Baseline, PagedRecall, Calls;
    cells, allOk := [], true;
    ghost var expected := Cells(scs);
    for n := 0 to 9
      invariant cells == expected[..n]
      invariant allOk <==> forall i :: 0 <= i < n ==> Passes(expected[i])
    {
      var cell := RunCellAt(scs, n);
      if !Passes(cell) {
        allOk := false;
      }
      cells := cells + [cell];
    }
    assert expected[..9] == expected;
  }

  lemma AllCells(parity: bool, margin: (nat, nat) -> bool)
    requires forall bpt, low, high :: low <= high && margin(bpt, high) ==> margin(bpt, low)
    ensures (forall i :: 0 <= i < 9 ==> Passes(CellsOf(parity, margin)[i])) <==>
              parity && margin(3, 16) && margin(4, 16) && margin(5, 16)
  {
    SweepOfAntitone(margin);
    var cells := CellsOf(parity, margin);
    assert cells[0].recallOk == parity;
    assert forall i :: 0 <= i < 9 ==> cells[i].marginOk == margin(CellBpt(i), CellOverhead(i));
  }

  /** The sweep collapses to recall parity and three margins at the largest overhead. */
  lemma SweepCollapses(scs: seq<Scenario>)
    ensures (forall i :: 0 <= i < 9 ==> Passes(Cells(scs)[i])) <==>
              RecallParity(scs) && Margin(scs, 3, 16) && Margin(scs, 4, 16) && Margin(scs, 5, 16)
  {
    hide Paged, Baseline, PagedRecall, Calls;
    var margin := MarginTest(scs);
    forall bpt: nat, low: nat, high: nat | low <= high && margin(bpt, high) ensures margin(bpt, low) {
      MarginAntitone(scs, bpt, low, high);
    }
    AllCells(RecallParity(scs), margin);
    assert margin(3, 16) == Margin(scs, 3, 16);
    assert margin(4, 16) == Margin(scs, 4, 16);
    assert margin(5, 16) == Margin(scs, 5, 16);
    var cells := Cells(scs);
    assert cells == CellsOf(RecallParity(scs), margin);
    assert forall i :: 0 <= i < 9 ==> Passes(cells[i]) == Passes(CellsOf(RecallParity(scs), margin)[i]);
  }

  method DedupGuard(scs: seq<Scenario>, t: Aggregate) returns (ok: bool)
    requires forall sc :: sc in scs ==> WellDigested(sc)
    requires t == Totals(scs, ProgressiveV2, 4, 4)
    ensures ok <==> GuardHolds(scs)
  {
    var dedup, rerank, saved := DecomposeAll(scs, 4, 4);
    var aggregate := SatSub(t.baseline, t.paged);
    if saved != aggregate {
      if aggregate >= dedup + rerank {
        saved := aggregate;
      } else {
        dedup, saved := aggregate, aggregate;
      }
    }
    ok := saved == 0 || dedup * 2 <= saved;
  }

  /** The verdict of `run_benchmark`: GO exactly when recall parity holds, the margin
      holds at overhead 16 for 3, 4 and 5 bytes per token, and the dedup guard holds. */
  method RunBenchmark(scenarios: seq<Scenario>) returns (report: Report)
    requires forall sc :: sc in scenarios ==> WellDigested(sc)
    ensures var scs := Gated(scenarios);
            && (report.allOk <==>
                  RecallParity(scs) && Margin(scs, 3, 16) && Margin(scs, 4, 16) && Margin(scs, 5, 16))
            && (report.guardOk <==> GuardHolds(scs))
            && (report.go <==> report.allOk && report.guardOk)
            && report.cells == Cells(scs)
            && forall sc :: multiset(scs)[sc] == if sc.name != "paraphrase-gap" then multiset(scenarios)[sc] else 0
  {
    forall sc ensures multiset(Gated(scenarios))[sc] == if sc.name != "paraphrase-gap" then multiset(scenarios)[sc] else 0 {
      GatedKeepsTheRest(scenarios, sc);
    }
    var scs := Gated(scenarios);
    GatedAreGiven(scenarios);
    var v2 := RunStrategy(scs, ProgressiveV2);
    var guardOk := DedupGuard(scs, v2);
    var cells, allOk := Sweep(scs);
    SweepCollapses(scs);
    var baseGo := v2.recall == v2.key && Sat(v2.paged * 2) < v2.baseline;
    if allOk {
      MarginAntitone(scs, 4, 4, 16);
    }
    report := Report(baseGo && guardOk && allOk, allOk, guardOk, cells);
  }
}
