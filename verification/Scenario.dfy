/** A benchmark scenario: a context graph, the representations stored for its nodes,
    and the hits a search returned for the query. */
module Scenarios {
  import opened Common

  type Id = string
  type Text = Bytes
  type Token = string

  datatype Level = Identity | Summary | Structured | Detailed | Source

  datatype Rep = Rep(level: Level, digest: Digest, content: Text)

  datatype RepSet = RepSet(nodeId: Id, reps: seq<Rep>)

  datatype Node = Node(id: Id, summary: Text)

  datatype Edge = Edge(from: Id, to: Id)

  datatype Hit = Hit(id: Id, matched: string, score: int)

  /** `hits` is what the search tool answers for `query`; `tokenize` is the tokenizer. */
  datatype Scenario = Scenario(
    name: string,
    nodes: seq<Node>,
    edges: seq<Edge>,
    sets: seq<RepSet>,
    query: Text,
    hits: seq<Hit>,
    answerKey: seq<Id>,
    tokenize: Text -> seq<Token>)

  function FindNode(nodes: seq<Node>, id: Id): Option<Node> {
    if nodes == [] then None
    else if nodes[0].id == id then Some(nodes[0])
    else FindNode(nodes[1..], id)
  }

  function FindSet(sets: seq<RepSet>, id: Id): Option<RepSet> {
    if sets == [] then None
    else if sets[0].nodeId == id then Some(sets[0])
    else FindSet(sets[1..], id)
  }

  function FindRep(reps: seq<Rep>, level: Level): Option<Rep> {
    if reps == [] then None
    else if reps[0].level == level then Some(reps[0])
    else FindRep(reps[1..], level)
  }

  function NodeOf(sc: Scenario, id: Id): Option<Node> {
    FindNode(sc.nodes, id)
  }

  function SummaryOf(sc: Scenario, id: Id): Text {
    match NodeOf(sc, id)
    case None => []
    case Some(n) => n.summary
  }

  function RepsOf(sc: Scenario, id: Id): seq<Rep> {
    match FindSet(sc.sets, id)
    case None => []
    case Some(s) => s.reps
  }

  /** What paging expands to: structured, detailed, summary, identity; never source. */
  function BestLevel(reps: seq<Rep>): Option<Level> {
    if FindRep(reps, Structured).Some? then Some(Structured)
    else if FindRep(reps, Detailed).Some? then Some(Detailed)
    else if FindRep(reps, Summary).Some? then Some(Summary)
    else if FindRep(reps, Identity).Some? then Some(Identity)
    else None
  }

  /** What the dump-everything baseline counts: the deepest level there is. */
  function DeepestLevel(reps: seq<Rep>): Option<Level> {
    if FindRep(reps, Source).Some? then Some(Source)
    else if FindRep(reps, Detailed).Some? then Some(Detailed)
    else if FindRep(reps, Structured).Some? then Some(Structured)
    else if FindRep(reps, Summary).Some? then Some(Summary)
    else if FindRep(reps, Identity).Some? then Some(Identity)
    else None
  }

  // ---- what the levels found mean ----

  /** What paging would rather expand to, first choice first. */
  const PAGING_ORDER: seq<Level> := [Structured, Detailed, Summary, Identity]

  /** What the baseline would rather count, first choice first. */
  const DEPTH_ORDER: seq<Level> := [Source, Detailed, Structured, Summary, Identity]

  predicate Stored(reps: seq<Rep>, level: Level) {
    exists r :: r in reps && r.level == level
  }

  /** `found` is the first level of the order that is stored, or none is. */
  ghost predicate FirstStored(reps: seq<Rep>, order: seq<Level>, found: Option<Level>) {
    match found
    case None => forall level :: level in order ==> !Stored(reps, level)
    case Some(level) =>
      exists i :: 0 <= i < |order| && order[i] == level && Stored(reps, level)
                  && forall j :: 0 <= j < i ==> !Stored(reps, order[j])
  }

  lemma {:induction false} FoundIffStored(reps: seq<Rep>, level: Level)
    ensures FindRep(reps, level).Some? <==> Stored(reps, level)
  {
    if reps != [] {
      FoundIffStored(reps[1..], level);
      assert reps == [reps[0]] + reps[1..];
      assert Stored(reps, level) <==> reps[0].level == level || Stored(reps[1..], level);
    }
  }

  /** Paging expands to the first of its levels that is stored, never to source; the
      baseline counts the deepest one stored. */
  lemma LevelsAreFirstChoices(reps: seq<Rep>)
    ensures FirstStored(reps, PAGING_ORDER, BestLevel(reps))
    ensures FirstStored(reps, DEPTH_ORDER, DeepestLevel(reps))
  {
    forall level ensures FindRep(reps, level).Some? <==> Stored(reps, level) {
      FoundIffStored(reps, level);
    }
    hide FindRep, Stored;
    assert PAGING_ORDER[0] == Structured && PAGING_ORDER[1] == Detailed && PAGING_ORDER[2] == Summary
           && PAGING_ORDER[3] == Identity;
    assert DEPTH_ORDER[0] == Source && DEPTH_ORDER[1] == Detailed && DEPTH_ORDER[2] == Structured
           && DEPTH_ORDER[3] == Summary && DEPTH_ORDER[4] == Identity;
  }

  function BestRep(sc: Scenario, id: Id): Option<Rep> {
    var reps := RepsOf(sc, id);
    match BestLevel(reps)
    case None => None
    case Some(level) => FindRep(reps, level)
  }

  predicate Expandable(sc: Scenario, id: Id) {
    BestLevel(RepsOf(sc, id)).Some?
  }

  /** The stored digest of every representation is the digest of its content. Empty
      content, which the store does not verify, may carry a digest of nothing. */
  ghost predicate WellDigested(sc: Scenario) {
    forall s, r :: s in sc.sets && r in s.reps ==> DigestOk(r)
  }

  predicate DigestOk(r: Rep) {
    r.digest == Sha256(r.content) || (r.content == [] && r.digest.Unrelated?)
  }

  lemma FoundRepIsStored(reps: seq<Rep>, level: Level)
    ensures FindRep(reps, level).Some? ==> FindRep(reps, level).value in reps
    ensures FindRep(reps, level).Some? ==> FindRep(reps, level).value.level == level
  {}

  lemma FoundSetIsStored(sets: seq<RepSet>, id: Id)
    ensures FindSet(sets, id).Some? ==> FindSet(sets, id).value in sets
  {}

  lemma BestRepDigest(sc: Scenario, id: Id)
    requires WellDigested(sc) && BestRep(sc, id).Some?
    ensures DigestOk(BestRep(sc, id).value)
  {
    FoundSetIsStored(sc.sets, id);
    FoundRepIsStored(RepsOf(sc, id), BestLevel(RepsOf(sc, id)).value);
  }
}
