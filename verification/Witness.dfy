/** Two concrete inputs of the benchmark: one on which it reports the verdict it calls
    impossible, and one on which every cell passes and the dedup guard alone says no. */
module Witnesses {
  import opened Common
  import opened Ordering
  import opened Scenarios
  import opened Selection
  import opened Neighbors
  import opened Cost
  import opened Recall
  import opened Gate
  import opened Policies
  import opened Search

  const MAX_NODES: nat := 512
  const MAX_ID_BYTES: nat := 256
  const MAX_SUMMARY_BYTES: nat := 2048
  const MAX_CONTENT_BYTES: nat := 8192

  /** The benchmark's own answer levels. */
  const ANSWERS: map<Id, Level> := map[
    "na-01" := Structured, "na-02" := Summary, "nb-01" := Structured, "ng-01" := Structured,
    "ng-02" := Summary, "nd-01" := Structured, "me-01" := Summary, "me-02" := Summary, "me-03" := Summary,
    "bf-01" := Summary, "bf-02" := Summary, "bf-03" := Summary, "bf-04" := Structured, "bf-05" := Identity]

  // ---- inputs the builders and the search tool produce ----

  predicate IsAscii(text: Text) {
    forall b :: b in text ==> b < 128
  }

  predicate NodeOk(n: Node) {
    Utf8Len(n.id) <= MAX_ID_BYTES && |n.summary| <= MAX_SUMMARY_BYTES && IsAscii(n.summary)
  }

  predicate GraphOk(nodes: seq<Node>) {
    && |nodes| <= MAX_NODES
    && (forall i :: 0 <= i < |nodes| ==> NodeOk(nodes[i]))
    && (forall i, j :: 0 <= i < j < |nodes| ==> StrLt(nodes[i].id, nodes[j].id))
  }

  predicate SetOk(s: RepSet) {
    && (forall i :: 0 <= i < |s.reps| ==>
          |s.reps[i].content| <= MAX_CONTENT_BYTES && s.reps[i].digest == Sha256(s.reps[i].content))
    && (forall i, j :: 0 <= i < j < |s.reps| ==> Depth(s.reps[i].level) < Depth(s.reps[j].level))
  }

  predicate StoreOk(sets: seq<RepSet>) {
    && |sets| <= MAX_NODES
    && (forall i :: 0 <= i < |sets| ==> Utf8Len(sets[i].nodeId) <= MAX_ID_BYTES && SetOk(sets[i]))
    && (forall i, j :: 0 <= i < j < |sets| ==> StrLt(sets[i].nodeId, sets[j].nodeId))
  }

  predicate KeyOk(sc: Scenario) {
    && sc.answerKey != []
    && (forall i, j :: 0 <= i < j < |sc.answerKey| ==> sc.answerKey[i] != sc.answerKey[j])
    && (forall i :: 0 <= i < |sc.answerKey| ==>
          NodeOf(sc, sc.answerKey[i]).Some? && FindRep(RepsOf(sc, sc.answerKey[i]), Identity).Some?)
  }

  /** Nodes of a kind and tier without bonus. */
  function NoBonus(id: Id): int {
    0
  }

  /** A scenario that the graph, store and scenario builders accept, with the hits that
      the search tool finds for its query and the benchmark's tokenizer. */
  ghost predicate Genuine(sc: Scenario) {
    && GraphOk(sc.nodes) && StoreOk(sc.sets) && KeyOk(sc) && sc.edges == []
    && IsAscii(sc.query)
    && sc.hits == SearchHits(sc.nodes, NoBonus, sc.query)
    && forall text :: sc.tokenize(text) == Tokenize(text)
  }

  lemma GenuineIsWellDigested(sc: Scenario)
    requires Genuine(sc)
    ensures WellDigested(sc)
  {
    hide KeyOk, SearchHits, Tokenize, GraphOk;
  }

  // ---- words of the witnesses ----

  const XY: Text := [120, 121]
  const XYZ: Text := [120, 121, 122]

  lemma {:induction false} WordChars(s: string, w: string, c: char)
    requires w in Words(s) && c in w
    ensures c in s
    decreases |s|
  {
    if Run(s) == 0 {
      WordChars(s[1..], w, c);
    } else if w != s[..Run(s)] {
      WordChars(s[Run(s)..], w, c);
    }
  }

  lemma DecodeXY()
    ensures Decode(XY) == "xy" && PlainWord("xy") && "xy" !in STOPWORDS
    ensures Terms(XY) == ["xy"] && Tokenize(XY) == []
  {
    assert XY[1..] == [121] && XY[1..][1..] == [];
    assert Decode(XY) == "xy";
    OneWord("xy");
    assert ["xy"][..0] == [] && ["xy"][1..] == [];
    assert |["xy"][0]| < 3;
  }

  lemma DecodeXYZ()
    ensures Decode(XYZ) == "xyz" && PlainWord("xyz") && "xyz" !in STOPWORDS
    ensures Terms(XYZ) == ["xyz"] && Tokenize(XYZ) == ["xyz"]
  {
    assert XYZ[1..] == [121, 122] && [121, 122][1..] == [122] && [122][1..] == [];
    assert Decode([122]) == "z";
    assert Decode([121, 122]) == "yz";
    assert Decode(XYZ) == "xyz";
    OneWord("xyz");
    assert ["xyz"][..0] == [] && ["xyz"][1..] == [];
    assert |["xyz"][0]| == 3;
  }

  /** What one plain term scores against a node whose summary is that term. */
  lemma TermScores(n: Node, term: string)
    requires PlainWord(term) && Decode(n.summary) == term
    ensures Matches([term], n)
    ensures term[0] !in LowerAll(n.id) ==> HitFor([term], NoBonus, n) == Hit(n.id, "summary", 10)
    ensures n.id == term ==> HitFor([term], NoBonus, n) == Hit(n.id, "id", 14)
  {
    OneWord(term);
    OccursInItself(term);
    assert term in [term] && SummaryText(n) == term;
    assert [term][1..] == [];
    assert Points(term, term, 10, 3) == 10;
    var id := LowerAll(n.id);
    assert Score(term, id, [term]) == 10 + Points(term, id, 4, 1) + Score(term, id, []);
    if term[0] !in id {
      Absent(term, id);
      if term in Words(id) {
        WordChars(id, term, term[0]);
      }
      assert Points(term, id, 4, 1) == 0 && !AnyOccurs([term], id);
    }
    if n.id == term {
      assert Points(term, id, 4, 1) == 4 && AnyOccurs([term], id);
    }
  }

  lemma TwoFound(terms: seq<string>, a: Node, b: Node)
    requires Matches(terms, a) && Matches(terms, b)
    ensures Found(terms, NoBonus, [a, b]) == [HitFor(terms, NoBonus, a), HitFor(terms, NoBonus, b)]
  {
    hide Matches, HitFor;
    assert [a, b][1..] == [b] && [b][1..] == [];
    assert Found(terms, NoBonus, [b]) == [HitFor(terms, NoBonus, b)];
  }

  lemma SortTwo(a: Hit, b: Hit)
    ensures Sort([a, b], HitLeq) == if HitLeq(a, b) then [a, b] else [b, a]
  {
    assert [a, b][1..] == [b] && [b][1..] == [];
    assert Sort([b], HitLeq) == [b];
    assert Insert(a, [], HitLeq) == [a];
    assert Insert(a, [b], HitLeq) == if HitLeq(a, b) then [a] + [b] else [b] + [a];
  }

  // ---- V3 above V2 ----

  /** Two hits with nothing but an identity; the answer is in the second one's summary. */
  function VoidScenario(): Scenario {
    Scenario(
      "void",
      [Node("na-01", XY), Node("na-02", XY)],
      [],
      [RepSet("na-01", [Rep(Identity, Sha256([3]), [3])]), RepSet("na-02", [Rep(Identity, Sha256([4]), [4])])],
      XY,
      [Hit("na-01", "summary", 10), Hit("na-02", "summary", 10)],
      ["na-02"],
      Tokenize)
  }

  lemma VoidOrder()
    ensures StrLeq("na-01", "na-02") && !StrLeq("na-02", "na-01")
  {
    assert "na-01"[1..] == "a-01" && "na-02"[1..] == "a-02";
    assert "a-01"[1..] == "-01" && "a-02"[1..] == "-02";
    assert "-01"[1..] == "01" && "-02"[1..] == "02";
    assert "01"[1..] == "1" && "02"[1..] == "2";
  }

  lemma VoidHits()
    ensures VoidScenario().hits == SearchHits(VoidScenario().nodes, NoBonus, XY)
  {
    hide Matches, HitFor, Found, Sort, Terms, Decode, LowerAll, StrLeq, PlainWord, Tokenize;
    var a, b := Node("na-01", XY), Node("na-02", XY);
    DecodeXY();
    assert XY[0] in XY && QueryOk(XY);
    LowerKeeps("na-01");
    LowerKeeps("na-02");
    TermScores(a, "xy");
    TermScores(b, "xy");
    TwoFound(["xy"], a, b);
    VoidOrder();
    TwoHits(a, b, XY, "xy", Hit("na-01", "summary", 10), Hit("na-02", "summary", 10));
  }

  lemma TwoHits(a: Node, b: Node, query: Text, term: string, first: Hit, second: Hit)
    requires QueryOk(query) && Terms(query) == [term]
    requires Found([term], NoBonus, [a, b]) == [first, second]
    ensures SearchHits([a, b], NoBonus, query) == if HitLeq(first, second) then [first, second] else [second, first]
  {
    hide QueryOk, Terms, Found, HitLeq, Sort;
    SortTwo(first, second);
  }

  lemma VoidFacts()
    ensures var sc := VoidScenario();
            && RepsOf(sc, "na-01") == [Rep(Identity, Sha256([3]), [3])]
            && RepsOf(sc, "na-02") == [Rep(Identity, Sha256([4]), [4])]
            && BestLevel(RepsOf(sc, "na-01")) == Some(Identity) && BestLevel(RepsOf(sc, "na-02")) == Some(Identity)
            && NodeOf(sc, "na-01").Some? && NodeOf(sc, "na-02").Some?
  {
    var sc := VoidScenario();
    assert "na-01"[4] != "na-02"[4];
    assert sc.sets[1..] == [sc.sets[1]] && sc.nodes[1..] == [sc.nodes[1]];
    assert FindSet(sc.sets[1..], "na-02") == Some(sc.sets[1]);
    assert FindNode(sc.nodes[1..], "na-02") == Some(sc.nodes[1]);
  }

  lemma VoidIsGenuine()
    ensures Genuine(VoidScenario())
  {
    hide SearchHits, Tokenize, GraphOk, StoreOk, KeyOk;
    VoidHits();
    VoidBuilds();
  }

  lemma VoidBuilds()
    ensures var sc := VoidScenario(); GraphOk(sc.nodes) && StoreOk(sc.sets) && KeyOk(sc)
  {
    VoidFacts();
    VoidOrder();
    Utf8AtMost("na-01");
    Utf8AtMost("na-02");
    hide Tokenize, RepsOf, NodeOf, BestLevel, StrLeq, Utf8Len;
    var sc := VoidScenario();
    assert NodeOk(sc.nodes[0]) && NodeOk(sc.nodes[1]);
    assert SetOk(sc.sets[0]) && SetOk(sc.sets[1]);
    hide NodeOk, SetOk;
    assert GraphOk(sc.nodes) && StoreOk(sc.sets);
    assert KeyOk(sc);
  }

  lemma VoidSelection()
    ensures Expanded(VoidScenario(), ProgressiveV3) == {"na-01"}
    ensures "na-02" in Expanded(VoidScenario(), ProgressiveV2)
  {
    var sc := VoidScenario();
    VoidPassing();
    hide Expanded, Passing, Eligible;
    var a, b := sc.hits[0], sc.hits[1];
    assert a in sc.hits && b in sc.hits;
    assert "na-01" in EligibleIds(sc) && "na-02" in PassingIds(sc);
    V2Expands(sc);
    V3ExpandsTheBest(sc);
    var best :| IsBest(sc, sc.hits, best) && Expanded(sc, ProgressiveV3) == {best};
    assert RankLeq(Rated(sc, best), Rated(sc, "na-01"));
    VoidOrder();
  }

  lemma VoidPassing()
    ensures var sc := VoidScenario();
            && Passing(sc, sc.hits[0]) && Passing(sc, sc.hits[1])
            && Eligible(sc, sc.hits[0]) && Eligible(sc, sc.hits[1])
            && Overlap(sc, "na-01") == 0 == Overlap(sc, "na-02")
  {
    VoidFacts();
    DecodeXY();
    hide RepsOf, BestLevel, NodeOf, Tokenize;
    var sc := VoidScenario();
    assert sc.tokenize(sc.query) == [];
    assert (set t | t in sc.tokenize(sc.query) && t in sc.tokenize(SummaryOf(sc, "na-01"))) == {};
    assert (set t | t in sc.tokenize(sc.query) && t in sc.tokenize(SummaryOf(sc, "na-02"))) == {};
  }

  /** Five answers are structured, which is all the floor asks. */
  lemma FloorHolds()
    ensures Committed(ANSWERS, Structured) >= 5
  {
    var all := set id | id in ANSWERS && ANSWERS[id] == Structured;
    assert "na-01" in all && "nb-01" in all && "ng-01" in all && "nd-01" in all && "bf-04" in all;
    SizeAtLeastFive(all, "na-01", "nb-01", "ng-01", "nd-01", "bf-04");
  }

  lemma SizeAtLeastFive(s: set<Id>, a: Id, b: Id, c: Id, d: Id, e: Id)
    requires {a, b, c, d, e} <= s
    requires a != b && a != c && a != d && a != e && b != c && b != d && b != e && c != d && c != e && d != e
    ensures |s| >= 5
  {
    assert |s - {a, b, c, d, e}| == |s| - |{a, b, c, d, e}|;
  }

  /** The verdict called impossible by construction is given on an input that the
      builders accept, with the hits the search finds and the benchmark's own answers. */
  lemma VoidVerdictIsReachable()
    ensures Genuine(VoidScenario()) && Gated([VoidScenario()]) == [VoidScenario()]
    ensures PolicyOf([VoidScenario()], ANSWERS) == Void
  {
    GatedAlone(VoidScenario());
    hide *;
    var sc := VoidScenario();
    VoidIsGenuine();
    GenuineIsWellDigested(sc);
    VoidFloor();
    VoidDemotes();
    PolicyExplained([sc], ANSWERS);
  }

  lemma VoidFloor()
    ensures FloorOk([VoidScenario()], ANSWERS)
  {
    var sc := VoidScenario();
    FloorHolds();
    hide Committed;
    assert [sc][..0] == [] && sc.answerKey[..0] == [];
    assert KeysAt(sc, ANSWERS, Summary) <= 1 && KeysAt(sc, ANSWERS, Structured) <= 1;
    assert AsRun([sc], ANSWERS, Summary) <= 1 && AsRun([sc], ANSWERS, Structured) <= 1;
  }

  lemma VoidDemotes()
    ensures TotalDemoted([VoidScenario()], ANSWERS) > TotalPromoted([VoidScenario()], ANSWERS)
  {
    var sc := VoidScenario();
    VoidFacts();
    VoidSelection();
    hide Expanded, RepsOf, NodeOf, BestLevel;
    assert sc.answerKey[..0] == [] && [sc][..0] == [];
    var fewer, more := Expanded(sc, ProgressiveV3), Expanded(sc, ProgressiveV2);
    assert Demoted(sc, ANSWERS, fewer, more, "na-02");
    assert !Promoted(sc, ANSWERS, fewer, more, "na-02");
    assert DemotedCount(sc, ANSWERS, fewer, more) == 1;
    assert PromotedCount(sc, ANSWERS, fewer, more) == 0;
  }

  lemma GatedAlone(sc: Scenario)
    requires sc.name != "paraphrase-gap"
    ensures Gated([sc]) == [sc]
  {
    assert [sc][1..] == [];
  }

  // ---- every cell passes and the guard says no ----

  function Filler(n: nat): Text {
    seq(n, i => 120)
  }

  /** Two hits with the same summary. The first matches by id, so only V1 expands it, to
      a structured level larger than the detailed one that the baseline counts. */
  function GuardScenario(): Scenario {
    Scenario(
      "guard",
      [Node("a", XYZ), Node("xyz", XYZ)],
      [],
      [RepSet("a", [Rep(Identity, Sha256([1]), [1])]),
       RepSet("xyz", [Rep(Structured, Sha256(Filler(2000)), Filler(2000)),
                      Rep(Detailed, Sha256(Filler(1000)), Filler(1000))])],
      XYZ,
      [Hit("xyz", "id", 14), Hit("a", "summary", 10)],
      ["a"],
      Tokenize)
  }

  lemma GuardHits()
    ensures GuardScenario().hits == SearchHits(GuardScenario().nodes, NoBonus, XYZ)
  {
    hide Matches, HitFor, Found, Sort, Terms, Decode, LowerAll, StrLeq, PlainWord, Tokenize;
    var a, b := Node("a", XYZ), Node("xyz", XYZ);
    DecodeXYZ();
    assert XYZ[0] in XYZ && QueryOk(XYZ);
    LowerKeeps("a");
    TermScores(a, "xyz");
    TermScores(b, "xyz");
    TwoFound(["xyz"], a, b);
    TwoHits(a, b, XYZ, "xyz", Hit("a", "summary", 10), Hit("xyz", "id", 14));
  }

  /** What the two nodes hold. */
  lemma GuardFacts()
    ensures var sc := GuardScenario();
            && NodeOf(sc, "a") == Some(sc.nodes[0]) && NodeOf(sc, "xyz") == Some(sc.nodes[1])
            && RepsOf(sc, "a") == sc.sets[0].reps && RepsOf(sc, "xyz") == sc.sets[1].reps
            && BestRep(sc, "a") == Some(sc.sets[0].reps[0]) && BestRep(sc, "xyz") == Some(sc.sets[1].reps[0])
            && Expandable(sc, "a") && Expandable(sc, "xyz")
            && DeepestLevel(sc.sets[0].reps) == Some(Identity) && DeepestLevel(sc.sets[1].reps) == Some(Detailed)
            && FindRep(sc.sets[0].reps, Identity) == Some(sc.sets[0].reps[0])
            && FindRep(sc.sets[1].reps, Detailed) == Some(sc.sets[1].reps[1])
  {
    var sc := GuardScenario();
    assert |"a"| != |"xyz"|;
    hide Tokenize, Filler;
    assert sc.sets[1..] == [sc.sets[1]] && sc.nodes[1..] == [sc.nodes[1]];
    assert FindSet(sc.sets[1..], "xyz") == Some(sc.sets[1]);
    assert FindNode(sc.nodes[1..], "xyz") == Some(sc.nodes[1]);
    var reps := sc.sets[1].reps;
    assert reps[1..] == [reps[1]] && reps[1..][1..] == [];
    assert FindRep(reps[1..], Detailed) == Some(reps[1]);
    assert FindRep(reps[1..], Source) == None;
    var one := sc.sets[0].reps;
    assert one[1..] == [];
  }

  lemma GuardIsGenuine()
    ensures Genuine(GuardScenario())
  {
    hide SearchHits, Tokenize, GraphOk, StoreOk, KeyOk;
    GuardHits();
    GuardBuilds();
  }

  lemma GuardBuilds()
    ensures var sc := GuardScenario(); GraphOk(sc.nodes) && StoreOk(sc.sets) && KeyOk(sc)
  {
    GuardFacts();
    Utf8AtMost("a");
    Utf8AtMost("xyz");
    assert StrLt("a", "xyz");
    hide Tokenize, RepsOf, NodeOf, BestRep, StrLeq, Utf8Len;
    var sc := GuardScenario();
    assert NodeOk(sc.nodes[0]) && NodeOk(sc.nodes[1]);
    GuardSetsOk();
    hide NodeOk, SetOk, Filler;
    assert GraphOk(sc.nodes) && StoreOk(sc.sets);
    assert KeyOk(sc);
  }

  lemma GuardSetsOk()
    ensures var sc := GuardScenario(); SetOk(sc.sets[0]) && SetOk(sc.sets[1])
  {
    hide Tokenize;
    assert |Filler(2000)| == 2000 && |Filler(1000)| == 1000;
    hide Filler;
  }

  lemma GuardSelection()
    ensures Expanded(GuardScenario(), ProgressiveV2) == {"a"}
    ensures Expanded(GuardScenario(), ExhaustiveV1) == {"a", "xyz"}
  {
    var sc := GuardScenario();
    GuardFacts();
    GuardOverlap();
    hide RepsOf, BestRep, NodeOf, Overlap, Tokenize, Pool, Expandable;
    V2Expands(sc);
    assert sc.hits[0] in sc.hits && sc.hits[1] in sc.hits;
    assert Passing(sc, sc.hits[1]) && !Passing(sc, sc.hits[0]);
    assert PassingIds(sc) == {"a"};
    assert Expanded(sc, ExhaustiveV1) == {"a", "xyz"};
  }

  lemma GuardOverlap()
    ensures var sc := GuardScenario(); Overlap(sc, "a") == 1 && Threshold(sc) == 1
  {
    var sc := GuardScenario();
    GuardFacts();
    DecodeXYZ();
    hide NodeOf, Tokenize;
    assert sc.tokenize(sc.query) == ["xyz"] && SummaryOf(sc, "a") == XYZ;
    assert (set t | t in sc.tokenize(sc.query) && t in sc.tokenize(SummaryOf(sc, "a"))) == {"xyz"};
  }

  lemma GuardNeighbours()
    ensures Neighbours(GuardScenario(), ProgressiveV2) == [] && Neighbours(GuardScenario(), ExhaustiveV1) == []
  {
    var sc := GuardScenario();
    var referrers := Expanded(sc, ProgressiveV2);
    hide Expanded, Ranking;
    RankingIsComplete(sc, referrers);
    assert NeighborIds(sc, referrers) == {};
    assert Admitted(sc, referrers) == [];
  }

  /** The order in which the decomposition visits what is expanded. */
  lemma GuardOrders()
    ensures InOrder({"a"}) == ["a"] && InOrder({"a", "xyz"}) == ["a", "xyz"]
  {
    assert StrLt("a", "xyz");
    assert Elements(["a"]) == {"a"} && Elements(["a", "xyz"]) == {"a", "xyz"};
    AscendingUnique(InOrder({"a"}), ["a"]);
    AscendingUnique(InOrder({"a", "xyz"}), ["a", "xyz"]);
  }

  /** Sums over the hits and over either order of expansion. */
  lemma GuardSums()
    ensures var sc := GuardScenario();
            && HitSeq(sc) == ["xyz", "a"]
            && InspectSet(sc, HitSeq(sc)) == {Sha256(XYZ)} && InspectSum(sc, HitSeq(sc)) == 6
            && InspectSet(sc, []) == {} && InspectSum(sc, []) == 0
            && ExpandSet(sc, HitSeq(sc), {"a"}) == {Sha256([1])} && ExpandCount(sc, HitSeq(sc), {"a"}) == 1
            && ExpandSum(sc, ["a"], {"a"}) == 1 && ExpandCount(sc, ["a"], {"a"}) == 1
            && ExpandSet(sc, ["a", "xyz"], {"a", "xyz"}) == {Sha256([1]), Sha256(Filler(2000))}
            && ExpandCount(sc, ["a", "xyz"], {"a", "xyz"}) == 2
  {
    var sc := GuardScenario();
    GuardFacts();
    hide NodeOf, RepsOf, BestRep, Tokenize;
    assert SummaryOf(sc, "a") == XYZ && SummaryOf(sc, "xyz") == XYZ;
    assert "xyz" !in {"a"};
    var ids := ["xyz", "a"];
    assert ids[..1] == ["xyz"] && ["xyz"][..0] == [] && ["a"][..0] == [] && ["a", "xyz"][..1] == ["a"];
    assert HitSeq(sc) == ids;
    assert InspectSum(sc, ["xyz"]) == 3;
    assert ExpandCount(sc, ["xyz"], {"a"}) == 0;
    assert ExpandCount(sc, ["a"], {"a", "xyz"}) == 1;
    assert "a" in ids && "xyz" in ids && "a" in ["a", "xyz"] && "xyz" in ["a", "xyz"];
  }

  lemma GuardLengths()
    ensures SumLen({Sha256(XYZ)} + {} + {Sha256([1])}) == 4
    ensures SumLen({Sha256(XYZ)} + {} + {Sha256([1]), Sha256(Filler(2000))}) == 2004
  {
    var a, b, c := Sha256(XYZ), Sha256([1]), Sha256(Filler(2000));
    assert |XYZ| == 3 && |Filler(2000)| == 2000;
    assert SumLen({}) == 0;
    assert {} + {a} == {a} && {a} + {} == {a};
    SumLenAdd({}, a);
    SumLenAdd({a}, b);
    SumLenAdd({a} + {b}, c);
    assert {a} + {} + {b} == {a} + {b} && {a} + {} + {b, c} == {a} + {b} + {c};
  }

  lemma GuardPaged(bpt: nat, overhead: nat)
    requires bpt > 0
    ensures Paged(GuardScenario(), ProgressiveV2, bpt, overhead) == SatAdd(CeilDiv(4, bpt), overhead * 4)
  {
    var sc := GuardScenario();
    GuardSelection();
    GuardNeighbours();
    GuardSums();
    GuardLengths();
    hide Expanded, Neighbours, HitSeq, InspectSet, ExpandSet, ExpandCount, SumLen;
    assert |sc.hits| == 2;
  }

  lemma GuardVariants()
    ensures Variant(GuardScenario(), false, false, 4, 4) == 18
    ensures Variant(GuardScenario(), true, true, 4, 4) == 521
  {
    var sc := GuardScenario();
    GuardSelection();
    GuardNeighbours();
    GuardOrders();
    GuardSums();
    GuardLengths();
    hide Expanded, Neighbours, HitSeq, InspectSet, ExpandSet, ExpandCount, SumLen, InspectSum, ExpandSum, InOrder;
    assert |sc.hits| == 2;
  }

  lemma GuardBaseline(bpt: nat)
    requires 3 <= bpt <= 5
    ensures Baseline(GuardScenario(), bpt) == if bpt == 3 then 335 else if bpt == 4 then 251 else 201
  {
    var sc := GuardScenario();
    GuardFacts();
    hide RepsOf, DeepestLevel, FindRep, Tokenize;
    assert |Filler(1000)| == 1000;
    assert sc.nodes[..2] == sc.nodes && sc.nodes[..1] == [sc.nodes[0]] && [sc.nodes[0]][..0] == [];
    assert DeepAll(sc, [], bpt) == 0;
    assert DeepAll(sc, [sc.nodes[0]], bpt) == 1;
  }

  lemma GuardRecall()
    ensures PagedRecall(GuardScenario(), ProgressiveV2) == 1
  {
    var sc := GuardScenario();
    GuardFacts();
    GuardSelection();
    hide Expanded, Expandable;
    assert sc.hits[1] in sc.hits && sc.answerKey[..0] == [];
  }

  lemma GuardMargins()
    ensures var scs := [GuardScenario()];
            RecallParity(scs) && Margin(scs, 3, 16) && Margin(scs, 4, 16) && Margin(scs, 5, 16)
  {
    hide *;
    GuardParity();
    GuardMargin(3);
    GuardMargin(4);
    GuardMargin(5);
  }

  lemma GuardParity()
    ensures RecallParity([GuardScenario()])
  {
    hide Totals, PagedRecall, Tokenize;
    GuardRecall();
    TotalsOfOne(GuardScenario(), ProgressiveV2, 4, 4);
  }

  lemma GuardMargin(bpt: nat)
    requires 3 <= bpt <= 5
    ensures Margin([GuardScenario()], bpt, 16)
  {
    hide Totals, Baseline, Paged, GuardScenario;
    GuardBaseline(bpt);
    GuardPrices(bpt);
    TotalsOfOne(GuardScenario(), ProgressiveV2, bpt, 16);
  }

  lemma GuardPrices(bpt: nat)
    requires 3 <= bpt <= 5
    ensures Paged(GuardScenario(), ProgressiveV2, bpt, 16) <= 66
    ensures Paged(GuardScenario(), ProgressiveV2, 4, 4) == 17
  {
    hide Paged, GuardScenario;
    GuardPaged(bpt, 16);
    GuardPaged(4, 4);
    assert CeilDiv(4, 3) == 2 && CeilDiv(4, 4) == 1 && CeilDiv(4, 5) == 1;
  }

  /** The guard can fail where all nine cells pass: on this input of the builders and the
      search tool, the verdict is not GO for that reason alone. */
  lemma GuardAloneCanRefuse()
    ensures Genuine(GuardScenario()) && Gated([GuardScenario()]) == [GuardScenario()]
    ensures var scs := [GuardScenario()];
            && RecallParity(scs) && Margin(scs, 3, 16) && Margin(scs, 4, 16) && Margin(scs, 5, 16)
            && !GuardHolds(scs)
  {
    GatedAlone(GuardScenario());
    hide *;
    GuardIsGenuine();
    GuardMargins();
    GuardFails();
  }

  lemma GuardFails()
    ensures !GuardHolds([GuardScenario()])
  {
    hide Totals, Baseline, Paged, Variant, TotalSaved, TotalRerank, GuardScenario;
    var sc := GuardScenario();
    GuardBaseline(4);
    GuardPrices(4);
    GuardVariants();
    TotalsOfOne(sc, ProgressiveV2, 4, 4);
    assert Saved(sc, 4, 4) == 233 && RerankSaved(sc, 4, 4) == 503;
  }
}
