/** What a paging strategy costs: bytes surfaced by inspecting and expanding, with
    already surfaced digests free, plus an overhead for every tool call. */
module Cost {
  import opened Common
  import opened Ordering
  import opened Scenarios
  import opened Selection
  import opened Neighbors

  // ---- sums over sets of digests ----

  function Len(d: Digest): nat {
    match d
    case Sha256(preimage) => |preimage|
    case Unrelated(_) => 0
  }

  ghost function SumLen(ds: set<Digest>): nat {
    if ds == {} then 0
    else
      var d :| d in ds;
      Len(d) + SumLen(ds - {d})
  }

  /** The sum does not depend on which element is taken first. */
  lemma {:induction false} SumLenRemove(ds: set<Digest>, d: Digest)
    requires d in ds
    ensures SumLen(ds) == Len(d) + SumLen(ds - {d})
  {
    var e :| e in ds && SumLen(ds) == Len(e) + SumLen(ds - {e});
    if e != d {
      SumLenRemove(ds - {e}, d);
      SumLenRemove(ds - {d}, e);
      assert ds - {e} - {d} == ds - {d} - {e};
    }
  }

  lemma SumLenAdd(ds: set<Digest>, d: Digest)
    ensures SumLen(ds + {d}) == SumLen(ds) + if d in ds then 0 else Len(d)
  {
    if d in ds {
      assert ds + {d} == ds;
    } else {
      SumLenRemove(ds + {d}, d);
      assert ds + {d} - {d} == ds;
    }
  }

  lemma {:induction false} SumLenUnion(a: set<Digest>, b: set<Digest>)
    ensures SumLen(a) <= SumLen(a + b) <= SumLen(a) + SumLen(b)
  {
    if b == {} {
      assert a + b == a;
    } else {
      var d :| d in b;
      SumLenUnion(a, b - {d});
      SumLenRemove(b, d);
      SumLenAdd(a + (b - {d}), d);
      assert a + (b - {d}) + {d} == a + b;
    }
  }

  lemma SumLenMonotone(a: set<Digest>, b: set<Digest>)
    requires a <= b
    ensures SumLen(a) <= SumLen(b)
  {
    SumLenUnion(a, b);
    assert a + b == b;
  }

  // ---- what inspecting and expanding a list of nodes surfaces ----

  function InspectSet(sc: Scenario, ids: seq<Id>): set<Digest> {
    set id | id in ids && NodeOf(sc, id).Some? :: Sha256(SummaryOf(sc, id))
  }

  function ExpandSet(sc: Scenario, ids: seq<Id>, within: set<Id>): set<Digest> {
    set id | id in ids && id in within && BestRep(sc, id).Some? :: BestRep(sc, id).value.digest
  }

  function InspectSum(sc: Scenario, ids: seq<Id>): nat {
    if ids == [] then 0
    else
      var id := ids[|ids| - 1];
      InspectSum(sc, ids[..|ids| - 1]) + if NodeOf(sc, id).Some? then |SummaryOf(sc, id)| else 0
  }

  predicate Counts(sc: Scenario, within: set<Id>, id: Id) {
    id in within && BestRep(sc, id).Some?
  }

  function ExpandSum(sc: Scenario, ids: seq<Id>, within: set<Id>): nat {
    if ids == [] then 0
    else
      var id := ids[|ids| - 1];
      ExpandSum(sc, ids[..|ids| - 1], within) + if Counts(sc, within, id) then |BestRep(sc, id).value.content| else 0
  }

  function ExpandCount(sc: Scenario, ids: seq<Id>, within: set<Id>): nat {
    if ids == [] then 0
    else ExpandCount(sc, ids[..|ids| - 1], within) + if Counts(sc, within, ids[|ids| - 1]) then 1 else 0
  }

  lemma InspectSetGrows(sc: Scenario, ids: seq<Id>, id: Id)
    ensures InspectSet(sc, ids + [id]) ==
            InspectSet(sc, ids) + if NodeOf(sc, id).Some? then {Sha256(SummaryOf(sc, id))} else {}
  {}

  lemma ExpandSetGrows(sc: Scenario, ids: seq<Id>, within: set<Id>, id: Id)
    ensures ExpandSet(sc, ids + [id], within) ==
            ExpandSet(sc, ids, within) + if Counts(sc, within, id) then {BestRep(sc, id).value.digest} else {}
  {}

  /** Surfaced digests depend on which nodes are visited, not on the order. */
  lemma SurfacedIgnoresOrder(sc: Scenario, ids: seq<Id>, ids': seq<Id>, within: set<Id>)
    requires Elements(ids) == Elements(ids')
    ensures InspectSet(sc, ids) == InspectSet(sc, ids')
    ensures ExpandSet(sc, ids, within) == ExpandSet(sc, ids', within)
  {
    assert forall id :: id in ids <==> id in Elements(ids');
  }

  lemma {:induction false} InspectDedupSaves(sc: Scenario, ids: seq<Id>)
    ensures SumLen(InspectSet(sc, ids)) <= InspectSum(sc, ids)
  {
    if ids != [] {
      var front, id := ids[..|ids| - 1], ids[|ids| - 1];
      assert ids == front + [id];
      InspectDedupSaves(sc, front);
      InspectSetGrows(sc, front, id);
      if NodeOf(sc, id).Some? {
        SumLenAdd(InspectSet(sc, front), Sha256(SummaryOf(sc, id)));
      } else {
        assert InspectSet(sc, ids) == InspectSet(sc, front);
      }
    }
  }

  lemma {:induction false} ExpandDedupSaves(sc: Scenario, ids: seq<Id>, within: set<Id>)
    requires WellDigested(sc)
    ensures SumLen(ExpandSet(sc, ids, within)) <= ExpandSum(sc, ids, within)
  {
    if ids != [] {
      var front, id := ids[..|ids| - 1], ids[|ids| - 1];
      assert ids == front + [id];
      ExpandDedupSaves(sc, front, within);
      ExpandSetGrows(sc, front, within, id);
      if Counts(sc, within, id) {
        BestRepDigest(sc, id);
        SumLenAdd(ExpandSet(sc, front, within), BestRep(sc, id).value.digest);
      } else {
        assert ExpandSet(sc, ids, within) == ExpandSet(sc, front, within);
      }
    }
  }

  lemma {:induction false} ExpandCountMonotone(sc: Scenario, ids: seq<Id>, a: set<Id>, b: set<Id>)
    requires a <= b
    ensures ExpandCount(sc, ids, a) <= ExpandCount(sc, ids, b)
  {
    if ids != [] {
      ExpandCountMonotone(sc, ids[..|ids| - 1], a, b);
    }
  }

  // ---- distinct visits in any order ----

  /** Bytes of the expansions of a set of nodes. */
  ghost function SetSum(sc: Scenario, ids: set<Id>): nat {
    if ids == {} then 0
    else
      var id :| id in ids;
      BestSize(sc, id) + SetSum(sc, ids - {id})
  }

  function BestSize(sc: Scenario, id: Id): nat {
    if BestRep(sc, id).Some? then |BestRep(sc, id).value.content| else 0
  }

  lemma {:induction false} SetSumRemove(sc: Scenario, ids: set<Id>, x: Id)
    requires x in ids
    ensures SetSum(sc, ids) == BestSize(sc, x) + SetSum(sc, ids - {x})
  {
    hide BestRep;
    var y :| y in ids && SetSum(sc, ids) == BestSize(sc, y) + SetSum(sc, ids - {y});
    if y != x {
      SetSumRemove(sc, ids - {y}, x);
      SetSumRemove(sc, ids - {x}, y);
      assert ids - {y} - {x} == ids - {x} - {y};
    }
  }

  predicate Distinctly(ids: seq<Id>) {
    forall i, j :: 0 <= i < j < |ids| ==> ids[i] != ids[j]
  }

  ghost function Expandables(sc: Scenario, within: set<Id>): set<Id> {
    set id | id in within && BestRep(sc, id).Some?
  }

  lemma {:induction false} DistinctVisits(sc: Scenario, ids: seq<Id>, within: set<Id>)
    requires Distinctly(ids)
    ensures ExpandSum(sc, ids, within) == SetSum(sc, Elements(ids) * within)
    ensures ExpandCount(sc, ids, within) == |Expandables(sc, Elements(ids) * within)|
  {
    hide BestRep;
    if ids == [] {
      assert Elements(ids) * within == {};
      assert Expandables(sc, {}) == {};
    } else {
      var front, id := ids[..|ids| - 1], ids[|ids| - 1];
      DistinctVisits(sc, front, within);
      VisitedGrows(ids, within);
      hide SetSum, Expandables, Elements;
      if id in within {
        assert Elements(ids) * within == Elements(front) * within + {id};
        OneMoreExpansion(sc, Elements(front) * within, id);
      } else {
        assert Elements(ids) * within == Elements(front) * within;
      }
    }
  }

  lemma VisitedGrows(ids: seq<Id>, within: set<Id>)
    requires ids != [] && Distinctly(ids)
    ensures var front, id := ids[..|ids| - 1], ids[|ids| - 1];
            && id !in Elements(front) && Distinctly(front)
            && Elements(ids) * within == Elements(front) * within + if id in within then {id} else {}
  {
    assert ids == ids[..|ids| - 1] + [ids[|ids| - 1]];
  }

  lemma OneMoreExpansion(sc: Scenario, was: set<Id>, id: Id)
    requires id !in was
    ensures SetSum(sc, was + {id}) == SetSum(sc, was) + BestSize(sc, id)
    ensures |Expandables(sc, was + {id})| == |Expandables(sc, was)| + if BestRep(sc, id).Some? then 1 else 0
  {
    hide BestRep;
    assert was + {id} - {id} == was;
    SetSumRemove(sc, was + {id}, id);
    assert Expandables(sc, was + {id}) == Expandables(sc, was) + if BestRep(sc, id).Some? then {id} else {};
  }

  /** Two lists of different nodes that agree on what is expanded cost the same. */
  lemma OrderOfExpansion(sc: Scenario, a: seq<Id>, b: seq<Id>, within: set<Id>)
    requires Distinctly(a) && Distinctly(b) && Elements(a) * within == Elements(b) * within
    ensures ExpandSum(sc, a, within) == ExpandSum(sc, b, within)
    ensures ExpandCount(sc, a, within) == ExpandCount(sc, b, within)
    ensures ExpandSet(sc, a, within) == ExpandSet(sc, b, within)
  {
    hide BestRep;
    DistinctVisits(sc, a, within);
    DistinctVisits(sc, b, within);
    forall id | id in within ensures id in a <==> id in b {
      assert id in a <==> id in Elements(a) * within;
      assert id in b <==> id in Elements(b) * within;
    }
  }

  // ---- the price of a scenario ----

  function HitSeq(sc: Scenario): seq<Id> {
    seq(|sc.hits|, i requires 0 <= i < |sc.hits| => sc.hits[i].id)
  }

  function Price(bytes: nat, calls: nat, bpt: nat, overhead: nat): nat
    requires bpt > 0
  {
    SatAdd(CeilDiv(Sat(bytes), bpt), overhead * Sat(calls))
  }

  ghost function Neighbours(sc: Scenario, strategy: Strategy): seq<Id> {
    if strategy == ProgressiveV2 then IdSeq(Admitted(sc, Expanded(sc, ProgressiveV2))) else []
  }

  function IdSeq(s: seq<Scored>): seq<Id> {
    seq(|s|, i requires 0 <= i < |s| => s[i].id)
  }

  ghost function Surfaced(sc: Scenario, strategy: Strategy): set<Digest> {
    InspectSet(sc, HitSeq(sc)) + InspectSet(sc, Neighbours(sc, strategy))
    + ExpandSet(sc, HitSeq(sc), Expanded(sc, strategy))
  }

  /** The digests a progressive strategy surfaces: the summaries of all hits, those of the
      neighbours that V2 admits, and what each expanded hit is expanded to. */
  lemma SurfacedIff(sc: Scenario, strategy: Strategy, d: Digest)
    ensures d in Surfaced(sc, strategy) <==>
              || (exists h :: h in sc.hits && NodeOf(sc, h.id).Some? && d == Sha256(NodeOf(sc, h.id).value.summary))
              || (strategy == ProgressiveV2 &&
                  exists c :: c in Admitted(sc, Expanded(sc, ProgressiveV2)) && NodeOf(sc, c.id).Some?
                              && d == Sha256(NodeOf(sc, c.id).value.summary))
              || (exists h :: h in sc.hits && h.id in Expanded(sc, strategy) && BestRep(sc, h.id).Some?
                              && d == BestRep(sc, h.id).value.digest)
  {
    hide NodeOf, BestRep, Expanded, Admitted;
    HitSeqMembers(sc);
    IdSeqMembers(Admitted(sc, Expanded(sc, ProgressiveV2)));
  }

  lemma HitSeqMembers(sc: Scenario)
    ensures forall id :: id in HitSeq(sc) <==> exists h :: h in sc.hits && h.id == id
  {
    forall id ensures id in HitSeq(sc) <==> exists h :: h in sc.hits && h.id == id {
      if h :| h in sc.hits && h.id == id {
        var i :| 0 <= i < |sc.hits| && sc.hits[i] == h;
        assert HitSeq(sc)[i] == id;
      }
    }
  }

  lemma IdSeqMembers(s: seq<Scored>)
    ensures forall id :: id in IdSeq(s) <==> exists c :: c in s && c.id == id
  {
    forall id ensures id in IdSeq(s) <==> exists c :: c in s && c.id == id {
      if c :| c in s && c.id == id {
        var i :| 0 <= i < |s| && s[i] == c;
        assert IdSeq(s)[i] == id;
      }
    }
  }

  /** V1 counts everything it visits; V2 and V3 count each distinct digest once. */
  ghost function SurfacedBytes(sc: Scenario, strategy: Strategy): nat {
    if strategy == ExhaustiveV1
    then InspectSum(sc, HitSeq(sc)) + ExpandSum(sc, HitSeq(sc), Expanded(sc, strategy))
    else SumLen(Surfaced(sc, strategy))
  }

  ghost function Calls(sc: Scenario, strategy: Strategy): nat {
    1 + |sc.hits| + |Neighbours(sc, strategy)| + ExpandCount(sc, HitSeq(sc), Expanded(sc, strategy))
  }

  ghost function Paged(sc: Scenario, strategy: Strategy, bpt: nat, overhead: nat): nat
    requires bpt > 0
  {
    Price(SurfacedBytes(sc, strategy), Calls(sc, strategy), bpt, overhead)
  }

  ghost function TopKBytes(sc: Scenario, k: nat): nat {
    SumLen(InspectSet(sc, HitSeq(sc)) + ExpandSet(sc, HitSeq(sc), TopK(sc, k)))
  }

  ghost function TopKCalls(sc: Scenario, k: nat): nat {
    1 + |sc.hits| + ExpandCount(sc, HitSeq(sc), TopK(sc, k))
  }

  lemma PriceMonotone(bytes: nat, bytes': nat, calls: nat, calls': nat, bpt: nat, overhead: nat, overhead': nat)
    requires bpt > 0 && bytes <= bytes' && calls <= calls' && overhead <= overhead'
    ensures Price(bytes, calls, bpt, overhead) <= Price(bytes', calls', bpt, overhead')
  {
    CeilDivMonotone(Sat(bytes), Sat(bytes'), bpt);
    ProductMonotone(overhead, overhead', Sat(calls), Sat(calls'));
  }

  lemma ProductMonotone(a: nat, a': nat, b: nat, b': nat)
    requires a <= a' && b <= b'
    ensures a * b <= a' * b'
  {
    assert a * b <= a' * b;
    assert a' * b <= a' * b';
  }

  /** The escalation curve: top-1 costs what V3 costs, cost never falls as k grows, and
      no point costs more than V2 or V1, at any bytes-per-token and overhead. */
  lemma EscalationCostChain(sc: Scenario, k: nat, bpt: nat, overhead: nat)
    requires WellDigested(sc) && bpt > 0
    ensures Price(TopKBytes(sc, 1), TopKCalls(sc, 1), bpt, overhead) == Paged(sc, ProgressiveV3, bpt, overhead)
    ensures Price(TopKBytes(sc, k), TopKCalls(sc, k), bpt, overhead)
            <= Price(TopKBytes(sc, k + 1), TopKCalls(sc, k + 1), bpt, overhead)
    ensures Price(TopKBytes(sc, k), TopKCalls(sc, k), bpt, overhead) <= Paged(sc, ProgressiveV2, bpt, overhead)
    ensures Price(TopKBytes(sc, k), TopKCalls(sc, k), bpt, overhead) <= Paged(sc, ExhaustiveV1, bpt, overhead)
  {
    StrategiesFormAChain(sc, k);
    TopOneIsV3(sc);
    NestedCost(sc, TopK(sc, k), TopK(sc, k + 1));
    PriceMonotone(TopKBytes(sc, k), TopKBytes(sc, k + 1), TopKCalls(sc, k), TopKCalls(sc, k + 1), bpt, overhead, overhead);
    V2CostsMore(sc, k);
    PriceMonotone(TopKBytes(sc, k), SurfacedBytes(sc, ProgressiveV2), TopKCalls(sc, k), Calls(sc, ProgressiveV2),
                  bpt, overhead, overhead);
    V1CostsMore(sc, k);
    PriceMonotone(TopKBytes(sc, k), SurfacedBytes(sc, ExhaustiveV1), TopKCalls(sc, k), Calls(sc, ExhaustiveV1),
                  bpt, overhead, overhead);
  }

  lemma TopOneIsV3(sc: Scenario)
    ensures TopKBytes(sc, 1) == SurfacedBytes(sc, ProgressiveV3)
    ensures TopKCalls(sc, 1) == Calls(sc, ProgressiveV3)
  {
    StrategiesFormAChain(sc, 1);
    assert InspectSet(sc, []) == {};
    assert InspectSet(sc, HitSeq(sc)) + ExpandSet(sc, HitSeq(sc), TopK(sc, 1)) == Surfaced(sc, ProgressiveV3);
  }

  lemma NestedCost(sc: Scenario, a: set<Id>, b: set<Id>)
    requires a <= b
    ensures SumLen(InspectSet(sc, HitSeq(sc)) + ExpandSet(sc, HitSeq(sc), a))
            <= SumLen(InspectSet(sc, HitSeq(sc)) + ExpandSet(sc, HitSeq(sc), b))
    ensures ExpandCount(sc, HitSeq(sc), a) <= ExpandCount(sc, HitSeq(sc), b)
  {
    ExpandCountMonotone(sc, HitSeq(sc), a, b);
    SumLenMonotone(InspectSet(sc, HitSeq(sc)) + ExpandSet(sc, HitSeq(sc), a),
                   InspectSet(sc, HitSeq(sc)) + ExpandSet(sc, HitSeq(sc), b));
  }

  lemma V2CostsMore(sc: Scenario, k: nat)
    ensures TopKBytes(sc, k) <= SurfacedBytes(sc, ProgressiveV2)
    ensures TopKCalls(sc, k) <= Calls(sc, ProgressiveV2)
  {
    StrategiesFormAChain(sc, k);
    NestedCost(sc, TopK(sc, k), Expanded(sc, ProgressiveV2));
    SumLenMonotone(InspectSet(sc, HitSeq(sc)) + ExpandSet(sc, HitSeq(sc), Expanded(sc, ProgressiveV2)),
                   Surfaced(sc, ProgressiveV2));
  }

  lemma V1CostsMore(sc: Scenario, k: nat)
    requires WellDigested(sc)
    ensures TopKBytes(sc, k) <= SurfacedBytes(sc, ExhaustiveV1)
    ensures TopKCalls(sc, k) <= Calls(sc, ExhaustiveV1)
  {
    var ids := HitSeq(sc);
    var all := Expanded(sc, ExhaustiveV1);
    StrategiesFormAChain(sc, k);
    NestedCost(sc, TopK(sc, k), all);
    SumLenUnion(InspectSet(sc, ids), ExpandSet(sc, ids, all));
    InspectDedupSaves(sc, ids);
    ExpandDedupSaves(sc, ids, all);
  }

  // ---- the code ----

  /** A running sum and the digests surfaced so far. */
  datatype Tally = Tally(sum: nat, seen: set<Digest>)

  function Surface(t: Tally, digest: Digest, length: nat, dedup: bool): Tally {
    if !dedup then t.(sum := SatAdd(t.sum, length))
    else if digest in t.seen then t
    else Tally(SatAdd(t.sum, length), t.seen + {digest})
  }

  function Inspected(sc: Scenario, ids: seq<Id>, dedup: bool, t: Tally): Tally {
    if ids == [] then t
    else
      var before := Inspected(sc, ids[..|ids| - 1], dedup, t);
      var node := NodeOf(sc, ids[|ids| - 1]);
      if node.None? then before
      else Surface(before, Sha256(node.value.summary), |node.value.summary|, dedup)
  }

  function ExpandedTally(sc: Scenario, ids: seq<Id>, within: set<Id>, dedup: bool, t: Tally): Tally {
    if ids == [] then t
    else
      var before := ExpandedTally(sc, ids[..|ids| - 1], within, dedup, t);
      var id := ids[|ids| - 1];
      if !Counts(sc, within, id) then before
      else
        var rep := BestRep(sc, id).value;
        Surface(before, rep.digest, |rep.content|, dedup)
  }

  /** From `t` on, distinct digests have been added once each, and only they. */
  ghost predicate Distinct(t: Tally, t': Tally, added: set<Digest>) {
    && t'.seen == t.seen + added
    && SumLen(t.seen) <= SumLen(t'.seen)
    && t'.sum == Sat(t.sum + SumLen(t'.seen) - SumLen(t.seen))
  }

  lemma SurfaceDistinct(t: Tally, t': Tally, added: set<Digest>, digest: Digest)
    requires Distinct(t, t', added)
    ensures Distinct(t, Surface(t', digest, Len(digest), true), added + {digest})
  {
    SumLenAdd(t'.seen, digest);
    assert t.seen + (added + {digest}) == t'.seen + {digest};
  }

  lemma {:induction false} InspectedDistinct(sc: Scenario, ids: seq<Id>, t: Tally)
    requires t.sum <= MAX_USIZE
    ensures Distinct(t, Inspected(sc, ids, true, t), InspectSet(sc, ids))
  {
    if ids == [] {
      assert t.seen + InspectSet(sc, ids) == t.seen;
    } else {
      var front, id := ids[..|ids| - 1], ids[|ids| - 1];
      assert ids == front + [id];
      InspectedDistinct(sc, front, t);
      InspectSetGrows(sc, front, id);
      if NodeOf(sc, id).Some? {
        SurfaceDistinct(t, Inspected(sc, front, true, t), InspectSet(sc, front), Sha256(SummaryOf(sc, id)));
      } else {
        assert InspectSet(sc, ids) == InspectSet(sc, front);
      }
    }
  }

  lemma {:induction false} ExpandedDistinct(sc: Scenario, ids: seq<Id>, within: set<Id>, t: Tally)
    requires WellDigested(sc) && t.sum <= MAX_USIZE
    ensures Distinct(t, ExpandedTally(sc, ids, within, true, t), ExpandSet(sc, ids, within))
  {
    if ids == [] {
      assert t.seen + ExpandSet(sc, ids, within) == t.seen;
    } else {
      var front, id := ids[..|ids| - 1], ids[|ids| - 1];
      assert ids == front + [id];
      ExpandedDistinct(sc, front, within, t);
      ExpandSetGrows(sc, front, within, id);
      if Counts(sc, within, id) {
        BestRepDigest(sc, id);
        SurfaceDistinct(t, ExpandedTally(sc, front, within, true, t), ExpandSet(sc, front, within),
                        BestRep(sc, id).value.digest);
      } else {
        assert ExpandSet(sc, ids, within) == ExpandSet(sc, front, within);
      }
    }
  }

  lemma {:induction false} InspectedPlain(sc: Scenario, ids: seq<Id>, t: Tally)
    requires t.sum <= MAX_USIZE
    ensures Inspected(sc, ids, false, t) == t.(sum := Sat(t.sum + InspectSum(sc, ids)))
  {
    if ids != [] {
      InspectedPlain(sc, ids[..|ids| - 1], t);
    }
  }

  lemma {:induction false} ExpandedPlain(sc: Scenario, ids: seq<Id>, within: set<Id>, t: Tally)
    requires t.sum <= MAX_USIZE
    ensures ExpandedTally(sc, ids, within, false, t) == t.(sum := Sat(t.sum + ExpandSum(sc, ids, within)))
  {
    if ids != [] {
      ExpandedPlain(sc, ids[..|ids| - 1], within, t);
    }
  }

  /** One inspect loop. */
  method Inspect(sc: Scenario, ids: seq<Id>, dedup: bool, seen: set<Digest>) returns (t: Tally)
    ensures t == Inspected(sc, ids, dedup, Tally(0, seen))
  {
    t := Tally(0, seen);
    for i := 0 to |ids|
      invariant t == Inspected(sc, ids[..i], dedup, Tally(0, seen))
    {
      assert ids[..i + 1][..i] == ids[..i];
      var node := NodeOf(sc, ids[i]);
      if node.Some? {
        t := Surface(t, Sha256(node.value.summary), |node.value.summary|, dedup);
      }
    }
    assert ids[..|ids|] == ids;
  }

  /** One expand loop: the nodes of `ids` that are in `within`. */
  method Expand(sc: Scenario, ids: seq<Id>, within: set<Id>, dedup: bool, seen: set<Digest>)
    returns (t: Tally, count: nat)
    ensures t == ExpandedTally(sc, ids, within, dedup, Tally(0, seen))
    ensures count == ExpandCount(sc, ids, within)
  {
    t, count := Tally(0, seen), 0;
    for i := 0 to |ids|
      invariant t == ExpandedTally(sc, ids[..i], within, dedup, Tally(0, seen))
      invariant count == ExpandCount(sc, ids[..i], within)
    {
      assert ids[..i + 1][..i] == ids[..i];
      var rep := BestRep(sc, ids[i]);
      if ids[i] in within && rep.Some? {
        t := Surface(t, rep.value.digest, |rep.value.content|, dedup);
        count := count + 1;
      }
    }
    assert ids[..|ids|] == ids;
  }

  /** The three loops of a deduplicating run: together they cost the total length of
      the distinct digests surfaced. */
  lemma DedupLoops(sc: Scenario, ids: seq<Id>, neighbours: seq<Id>, order: seq<Id>, within: set<Id>)
    requires WellDigested(sc)
    ensures var t1 := Inspected(sc, ids, true, Tally(0, {}));
            var t2 := Inspected(sc, neighbours, true, Tally(0, t1.seen));
            var t3 := ExpandedTally(sc, order, within, true, Tally(0, t2.seen));
            && t3.seen == InspectSet(sc, ids) + InspectSet(sc, neighbours) + ExpandSet(sc, order, within)
            && SatAdd(t3.sum, SatAdd(t1.sum, t2.sum)) == Sat(SumLen(t3.seen))
  {
    var t1 := Inspected(sc, ids, true, Tally(0, {}));
    var t2 := Inspected(sc, neighbours, true, Tally(0, t1.seen));
    InspectedDistinct(sc, ids, Tally(0, {}));
    InspectedDistinct(sc, neighbours, Tally(0, t1.seen));
    ExpandedDistinct(sc, order, within, Tally(0, t2.seen));
    assert {} + InspectSet(sc, ids) == InspectSet(sc, ids);
    assert SumLen({}) == 0;
  }

  lemma PlainLoops(sc: Scenario, ids: seq<Id>, neighbours: seq<Id>, order: seq<Id>, within: set<Id>)
    ensures var t1 := Inspected(sc, ids, false, Tally(0, {}));
            var t2 := Inspected(sc, neighbours, false, Tally(0, t1.seen));
            var t3 := ExpandedTally(sc, order, within, false, Tally(0, t2.seen));
            SatAdd(t3.sum, SatAdd(t1.sum, t2.sum))
            == Sat(InspectSum(sc, ids) + InspectSum(sc, neighbours) + ExpandSum(sc, order, within))
  {
    var zero := Tally(0, {});
    InspectedPlain(sc, ids, zero);
    InspectedPlain(sc, neighbours, zero);
    ExpandedPlain(sc, order, within, zero);
    SatThree(InspectSum(sc, ids), InspectSum(sc, neighbours), ExpandSum(sc, order, within));
  }

  /** The price of what three loops tallied. */
  function PriceTallies(t1: Tally, t2: Tally, t3: Tally, calls: nat, bpt: nat, overhead: nat): nat
    requires bpt > 0
  {
    SatAdd(CeilDiv(SatAdd(t3.sum, SatAdd(t1.sum, t2.sum)), bpt), overhead * calls)
  }

  method CountCalls(hits: nat, candidates: nat, count: nat) returns (calls: nat)
    ensures calls == Sat(1 + hits + candidates + count)
  {
    calls := SatAdd(SatAdd(SatAdd(1, hits), candidates), count);
  }

  /** What three loops over these lists are billed. */
  ghost function Bill(sc: Scenario, neighbours: seq<Id>, order: seq<Id>, within: set<Id>, dedup: bool,
                      bpt: nat, overhead: nat): nat
    requires bpt > 0
  {
    Price(if dedup then SumLen(InspectSet(sc, HitSeq(sc)) + InspectSet(sc, neighbours) + ExpandSet(sc, order, within))
          else InspectSum(sc, HitSeq(sc)) + InspectSum(sc, neighbours) + ExpandSum(sc, order, within),
          1 + |sc.hits| + |neighbours| + ExpandCount(sc, order, within), bpt, overhead)
  }

  lemma PagedIsBilled(sc: Scenario, strategy: Strategy, bpt: nat, overhead: nat)
    requires bpt > 0
    ensures Paged(sc, strategy, bpt, overhead) ==
            Bill(sc, Neighbours(sc, strategy), HitSeq(sc), Expanded(sc, strategy), strategy != ExhaustiveV1, bpt, overhead)
  {}

  /** The inspect, candidate and expand loops of one run. */
  method RunLoops(sc: Scenario, neighbours: seq<Id>, order: seq<Id>, within: set<Id>, dedup: bool,
                  bpt: nat, overhead: nat)
    returns (paged: nat, calls: nat)
    requires WellDigested(sc) && bpt > 0
    ensures calls == Sat(1 + |sc.hits| + |neighbours| + ExpandCount(sc, order, within))
    ensures paged == Bill(sc, neighbours, order, within, dedup, bpt, overhead)
  {
    var ids := HitSeq(sc);
    var t1 := Inspect(sc, ids, dedup, {});
    var t2 := Inspect(sc, neighbours, dedup, t1.seen);
    var t3, count := Expand(sc, order, within, dedup, t2.seen);
    calls := CountCalls(|sc.hits|, |neighbours|, count);
    if dedup {
      DedupLoops(sc, ids, neighbours, order, within);
    } else {
      PlainLoops(sc, ids, neighbours, order, within);
    }
    paged := PriceTallies(t1, t2, t3, calls, bpt, overhead);
  }

  /** The neighbours a strategy inspects; only V2 has any. */
  method FindNeighbours(sc: Scenario, strategy: Strategy, expanded: set<Id>) returns (neighbours: seq<Id>)
    requires expanded == Expanded(sc, strategy)
    ensures neighbours == Neighbours(sc, strategy)
  {
    if strategy == ProgressiveV2 {
      var candidates, generated := NeighborCandidates(sc, expanded);
      neighbours := IdSeq(candidates);
    } else {
      neighbours := [];
    }
  }

  /** One scenario of `run_strategy_with`: its price and its tool calls. */
  method RunPaged(sc: Scenario, strategy: Strategy, expanded: set<Id>, bpt: nat, overhead: nat)
    returns (paged: nat, calls: nat)
    requires WellDigested(sc) && bpt > 0 && expanded == Expanded(sc, strategy)
    ensures paged == Paged(sc, strategy, bpt, overhead)
    ensures calls == Sat(Calls(sc, strategy))
  {
    var neighbours := FindNeighbours(sc, strategy, expanded);
    paged, calls := RunLoops(sc, neighbours, HitSeq(sc), expanded, strategy != ExhaustiveV1, bpt, overhead);
    PagedIsBilled(sc, strategy, bpt, overhead);
  }

  /** One scenario of `run_strategy`, which spells out the loops of each strategy and
      fixes 4 bytes a token and 4 tokens a call. */
  method RunBranches(sc: Scenario, strategy: Strategy, expanded: set<Id>) returns (paged: nat, calls: nat)
    requires WellDigested(sc) && expanded == Expanded(sc, strategy)
    ensures paged == Paged(sc, strategy, 4, 4)
    ensures calls == Sat(Calls(sc, strategy))
  {
    hide Expanded, InspectSum, ExpandSum, ExpandCount, InspectSet, ExpandSet, HitSeq, SumLen;
    var inspected, surfaced, count, candidates;
    match strategy {
      case ExhaustiveV1 =>
        inspected, surfaced, count := VisitPlainly(sc, expanded);
        candidates := 0;
      case ProgressiveV2 =>
        var neighbours := FindNeighbours(sc, ProgressiveV2, expanded);
        inspected, surfaced, count := VisitWithNeighbours(sc, neighbours, expanded);
        candidates := |neighbours|;
      case ProgressiveV3 =>
        inspected, surfaced, count := VisitOnce(sc, expanded);
        candidates := 0;
    }
    calls := CountCalls(|sc.hits|, candidates, count);
    paged := SatAdd(CeilDiv(SatAdd(surfaced, inspected), 4), 4 * calls);
  }

  /** The V1 branch: two loops, everything counted. */
  method VisitPlainly(sc: Scenario, expanded: set<Id>) returns (inspected: nat, surfaced: nat, count: nat)
    ensures SatAdd(surfaced, inspected) == Sat(InspectSum(sc, HitSeq(sc)) + ExpandSum(sc, HitSeq(sc), expanded))
    ensures count == ExpandCount(sc, HitSeq(sc), expanded)
  {
    hide *;
    var ids := HitSeq(sc);
    var t1 := Inspect(sc, ids, false, {});
    var t2;
    t2, count := Expand(sc, ids, expanded, false, {});
    InspectedPlain(sc, ids, Tally(0, {}));
    ExpandedPlain(sc, ids, expanded, Tally(0, {}));
    SatTwo(InspectSum(sc, ids), ExpandSum(sc, ids, expanded));
    inspected, surfaced := t1.sum, t2.sum;
  }

  /** The V2 branch: three loops sharing one set of surfaced digests. */
  method VisitWithNeighbours(sc: Scenario, neighbours: seq<Id>, expanded: set<Id>)
    returns (inspected: nat, surfaced: nat, count: nat)
    requires WellDigested(sc)
    ensures SatAdd(surfaced, inspected) ==
            Sat(SumLen(InspectSet(sc, HitSeq(sc)) + InspectSet(sc, neighbours) + ExpandSet(sc, HitSeq(sc), expanded)))
    ensures count == ExpandCount(sc, HitSeq(sc), expanded)
  {
    hide Inspected, ExpandedTally, InspectSum, ExpandSum, ExpandCount, InspectSet, ExpandSet, HitSeq;
    var ids := HitSeq(sc);
    var t1 := Inspect(sc, ids, true, {});
    var t2 := Inspect(sc, neighbours, true, t1.seen);
    var t3;
    t3, count := Expand(sc, ids, expanded, true, t2.seen);
    DedupLoops(sc, ids, neighbours, ids, expanded);
    inspected, surfaced := SatAdd(t1.sum, t2.sum), t3.sum;
  }

  lemma NothingInspected(sc: Scenario, t: Tally)
    ensures Inspected(sc, [], true, t) == t
  {}

  /** The V3 branch: two loops sharing one set of surfaced digests. */
  method VisitOnce(sc: Scenario, expanded: set<Id>) returns (inspected: nat, surfaced: nat, count: nat)
    requires WellDigested(sc)
    ensures SatAdd(surfaced, inspected) ==
            Sat(SumLen(InspectSet(sc, HitSeq(sc)) + InspectSet(sc, []) + ExpandSet(sc, HitSeq(sc), expanded)))
    ensures count == ExpandCount(sc, HitSeq(sc), expanded)
  {
    hide Inspected, ExpandedTally, InspectSum, ExpandSum, ExpandCount, InspectSet, ExpandSet, HitSeq;
    var ids := HitSeq(sc);
    var t1 := Inspect(sc, ids, true, {});
    assert Inspected(sc, [], true, Tally(0, t1.seen)) == Tally(0, t1.seen) by { NothingInspected(sc, Tally(0, t1.seen)); }
    var t2;
    t2, count := Expand(sc, ids, expanded, true, t1.seen);
    DedupLoops(sc, ids, [], ids, expanded);
    InspectedDistinct(sc, ids, Tally(0, {}));
    inspected, surfaced := t1.sum, t2.sum;
  }

  /** The cost of a point of the escalation curve, which is summed without saturation. */
  ghost function CurveCost(sc: Scenario, k: nat): nat {
    CeilDiv(TopKBytes(sc, k), 4) + 4 * TopKCalls(sc, k)
  }

  ghost predicate CurveFits(sc: Scenario, k: nat) {
    TopKBytes(sc, k) <= MAX_USIZE && CurveCost(sc, k) <= MAX_USIZE
  }

  /** The curve rises with k; where its sums fit a `usize`, its first point is the cost
      of V3 and no point is above V2 or V1. */
  lemma CurveRises(sc: Scenario, k: nat)
    requires WellDigested(sc)
    ensures CurveCost(sc, k) <= CurveCost(sc, k + 1)
    ensures CurveFits(sc, 1) ==> CurveCost(sc, 1) == Paged(sc, ProgressiveV3, 4, 4)
    ensures CurveFits(sc, k) ==> CurveCost(sc, k) <= Paged(sc, ProgressiveV2, 4, 4)
    ensures CurveFits(sc, k) ==> CurveCost(sc, k) <= Paged(sc, ExhaustiveV1, 4, 4)
  {
    hide Paged, Price, CeilDiv, SumLen, WellDigested, TopK, Expanded, Pool;
    EscalationCostChain(sc, k, 4, 4);
    StrategiesFormAChain(sc, k);
    NestedCost(sc, TopK(sc, k), TopK(sc, k + 1));
    CeilDivMonotone(TopKBytes(sc, k), TopKBytes(sc, k + 1), 4);
    UnsaturatedPrice(TopKBytes(sc, 1), TopKCalls(sc, 1));
    UnsaturatedPrice(TopKBytes(sc, k), TopKCalls(sc, k));
  }

  lemma UnsaturatedPrice(bytes: nat, calls: nat)
    ensures bytes <= MAX_USIZE && CeilDiv(bytes, 4) + 4 * calls <= MAX_USIZE ==>
              Price(bytes, calls, 4, 4) == CeilDiv(bytes, 4) + 4 * calls
  {
    hide CeilDiv;
  }

  /** One scenario at one point of the escalation curve. */
  method TopKPoint(sc: Scenario, k: nat) returns (cost: nat, calls: nat)
    requires WellDigested(sc)
    ensures calls == TopKCalls(sc, k) && cost == CurveCost(sc, k)
  {
    hide TopK, BestRep, SumLen;
    var expanded := ExpandedTopK(sc, k);
    var ids := HitSeq(sc);
    var seen, inspected := InspectExactly(sc, ids);
    var surfaced, count := ExpandExactly(sc, ids, expanded, seen);
    calls := 1 + |sc.hits| + count;
    cost := CeilDiv(inspected + surfaced, 4) + 4 * calls;
  }

  /** The inspect loop of the curve. */
  method InspectExactly(sc: Scenario, ids: seq<Id>) returns (seen: set<Digest>, sum: nat)
    ensures seen == InspectSet(sc, ids) && sum == SumLen(seen)
  {
    hide NodeOf;
    seen, sum := {}, 0;
    for i := 0 to |ids|
      invariant seen == InspectSet(sc, ids[..i]) && sum == SumLen(seen)
    {
      assert ids[..i + 1] == ids[..i] + [ids[i]];
      InspectSetGrows(sc, ids[..i], ids[i]);
      var node := NodeOf(sc, ids[i]);
      if node.Some? {
        var digest := Sha256(node.value.summary);
        SumLenAdd(seen, digest);
        if digest !in seen {
          sum := sum + |node.value.summary|;
        }
        seen := seen + {digest};
      }
    }
    assert ids[..|ids|] == ids;
  }

  /** The expand loop of the curve: what it adds to the digests already surfaced. */
  method ExpandExactly(sc: Scenario, ids: seq<Id>, within: set<Id>, before: set<Digest>) returns (sum: nat, count: nat)
    requires WellDigested(sc)
    ensures SumLen(before) + sum == SumLen(before + ExpandSet(sc, ids, within))
    ensures count == ExpandCount(sc, ids, within)
  {
    hide BestRep, WellDigested;
    var seen := before;
    sum, count := 0, 0;
    for i := 0 to |ids|
      invariant seen == before + ExpandSet(sc, ids[..i], within) && SumLen(before) + sum == SumLen(seen)
      invariant count == ExpandCount(sc, ids[..i], within)
    {
      assert ids[..i + 1][..i] == ids[..i] && ids[..i + 1] == ids[..i] + [ids[i]];
      ExpandSetGrows(sc, ids[..i], within, ids[i]);
      var rep := BestRep(sc, ids[i]);
      if ids[i] in within && rep.Some? {
        BestRepDigest(sc, ids[i]);
        SumLenAdd(seen, rep.value.digest);
        if rep.value.digest !in seen {
          sum := sum + |rep.value.content|;
        }
        seen := seen + {rep.value.digest};
        count := count + 1;
      }
    }
    assert ids[..|ids|] == ids;
  }
}
