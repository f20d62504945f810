/** The search tool and the benchmark's tokenizer, on ASCII text. */
module Search {
  import opened Common
  import opened Ordering
  import opened Scenarios

  const MAX_RESULTS: nat := 16
  const MAX_QUERY_BYTES: nat := 256
  const STOPWORDS: set<string> := {
    "a", "an", "and", "are", "as", "at", "by", "for", "from", "in", "is",
    "of", "on", "or", "the", "to", "with"}

  // ---- words ----

  function Decode(text: Text): string {
    if text == [] then "" else [text[0] as char] + Decode(text[1..])
  }

  function Lower(c: char): char {
    if 'A' <= c <= 'Z' then (c as int + 32) as char else c
  }

  function LowerAll(s: string): string {
    if s == "" then "" else [Lower(s[0])] + LowerAll(s[1..])
  }

  /** Length of the word that `s` starts with. */
  function Run(s: string): (n: nat)
    ensures n <= |s|
  {
    if s == "" || !Alphanumeric(s[0]) then 0 else 1 + Run(s[1..])
  }

  /** The maximal alphanumeric runs, in order. */
  function Words(s: string): seq<string>
    decreases |s|
  {
    if s == "" then []
    else if Run(s) == 0 then Words(s[1..])
    else [s[..Run(s)]] + Words(s[Run(s)..])
  }

  /** Words of three bytes or more, each once, in order of first occurrence. */
  function LongDistinct(words: seq<string>): seq<string> {
    if words == [] then []
    else
      var front, last := LongDistinct(words[..|words| - 1]), words[|words| - 1];
      if |last| < 3 || last in front then front else front + [last]
  }

  /** The benchmark's `tokenize`. */
  function Tokenize(text: Text): seq<Token> {
    LongDistinct(Words(LowerAll(Decode(text))))
  }

  function WithoutStopwords(words: seq<string>): seq<string> {
    if words == [] then []
    else (if words[0] in STOPWORDS then [] else [words[0]]) + WithoutStopwords(words[1..])
  }

  function Terms(query: Text): seq<string> {
    WithoutStopwords(Words(LowerAll(Decode(query))))
  }

  // ---- search ----

  predicate IsSpace(b: byte) {
    9 <= b <= 13 || b == 32
  }

  /** `parse_query_input`. */
  predicate QueryOk(query: Text) {
    |query| <= MAX_QUERY_BYTES && exists b :: b in query && !IsSpace(b)
  }

  predicate OccursAt(term: string, text: string, i: nat) {
    i + |term| <= |text| && text[i..i + |term|] == term
  }

  predicate Occurs(term: string, text: string) {
    exists i :: 0 <= i <= |text| && OccursAt(term, text, i)
  }

  function Points(term: string, text: string, word: int, part: int): int {
    if term in Words(text) then word else if Occurs(term, text) then part else 0
  }

  function Score(summary: string, id: string, terms: seq<string>): int {
    if terms == [] then 0
    else Points(terms[0], summary, 10, 3) + Points(terms[0], id, 4, 1) + Score(summary, id, terms[1..])
  }

  predicate AnyOccurs(terms: seq<string>, text: string) {
    exists t :: t in terms && Occurs(t, text)
  }

  function SummaryText(n: Node): string {
    LowerAll(Decode(n.summary))
  }

  predicate Matches(terms: seq<string>, n: Node) {
    AnyOccurs(terms, SummaryText(n)) || AnyOccurs(terms, LowerAll(n.id))
  }

  /** The bonus stands for a node's kind and tier. */
  function HitFor(terms: seq<string>, bonus: Id -> int, n: Node): Hit {
    Hit(n.id, if AnyOccurs(terms, LowerAll(n.id)) then "id" else "summary",
        bonus(n.id) + Score(SummaryText(n), LowerAll(n.id), terms))
  }

  function Found(terms: seq<string>, bonus: Id -> int, nodes: seq<Node>): seq<Hit> {
    if nodes == [] then []
    else (if Matches(terms, nodes[0]) then [HitFor(terms, bonus, nodes[0])] else []) + Found(terms, bonus, nodes[1..])
  }

  predicate HitLeq(a: Hit, b: Hit) {
    a.score > b.score || (a.score == b.score && StrLeq(a.id, b.id))
  }

  /** What the benchmark reads from `context.search`; a refused query has no hits. */
  function SearchHits(nodes: seq<Node>, bonus: Id -> int, query: Text): seq<Hit> {
    if !QueryOk(query) then []
    else
      var ranked := Sort(Found(Terms(query), bonus, nodes), HitLeq);
      ranked[..Min(MAX_RESULTS, |ranked|)]
  }

  lemma {:induction false} FoundMembers(terms: seq<string>, bonus: Id -> int, nodes: seq<Node>)
    ensures forall h :: h in Found(terms, bonus, nodes) <==>
              exists n :: n in nodes && Matches(terms, n) && h == HitFor(terms, bonus, n)
  {
    if nodes != [] {
      FoundMembers(terms, bonus, nodes[1..]);
      assert nodes == [nodes[0]] + nodes[1..];
    }
  }

  /** Every hit is a node that contains a term, ranked by score and then id; at most
      sixteen; and when no more than sixteen nodes match, every one that does is hit. */
  lemma SearchIsExact(nodes: seq<Node>, bonus: Id -> int, query: Text)
    requires QueryOk(query)
    ensures var hits, terms := SearchHits(nodes, bonus, query), Terms(query);
            && |hits| <= 16 && Sorted(hits, HitLeq)
            && (forall h :: h in hits ==> exists n :: n in nodes && Matches(terms, n) && h == HitFor(terms, bonus, n))
            && (|Found(terms, bonus, nodes)| <= 16 ==>
                  forall n :: n in nodes && Matches(terms, n) ==> HitFor(terms, bonus, n) in hits)
  {
    hide HitFor, Matches, Terms, Sort;
    var terms := Terms(query);
    var found := Found(terms, bonus, nodes);
    var ranked := Sort(found, HitLeq);
    FoundMembers(terms, bonus, nodes);
    HitOrder();
    SortSorts(found, HitLeq);
    SortMembers(found, HitLeq);
    SortPermutes(found, HitLeq);
    var hits := SearchHits(nodes, bonus, query);
    forall h | h in hits ensures h in found {
      assert h in ranked;
    }
    if |found| <= MAX_RESULTS {
      assert hits == ranked;
    }
  }

  lemma HitOrder()
    ensures Preorder(HitLeq)
  {
    forall a: Hit, b: Hit ensures HitLeq(a, b) || HitLeq(b, a) {
      StrTotal(a.id, b.id);
    }
    forall a: Hit, b: Hit, c: Hit | HitLeq(a, b) && HitLeq(b, c) ensures HitLeq(a, c) {
      if a.score == b.score == c.score {
        StrTransitive(a.id, b.id, c.id);
      }
    }
  }

  // ---- one plain word ----

  predicate PlainWord(s: string) {
    s != "" && forall i :: 0 <= i < |s| ==> Alphanumeric(s[i]) && Lower(s[i]) == s[i]
  }

  lemma {:induction false} LowerKeeps(s: string)
    requires forall i :: 0 <= i < |s| ==> Lower(s[i]) == s[i]
    ensures LowerAll(s) == s
  {
    if s != "" {
      LowerKeeps(s[1..]);
    }
  }

  lemma {:induction false} RunOfWord(s: string)
    requires forall i :: 0 <= i < |s| ==> Alphanumeric(s[i])
    ensures Run(s) == |s|
  {
    if s != "" {
      RunOfWord(s[1..]);
    }
  }

  lemma OneWord(s: string)
    requires PlainWord(s)
    ensures LowerAll(s) == s && Words(s) == [s]
  {
    LowerKeeps(s);
    RunOfWord(s);
    assert s[..|s|] == s && Words(s[|s|..]) == [];
  }

  /** A text that lacks the first character of a term does not contain the term. */
  lemma Absent(term: string, text: string)
    requires term != "" && term[0] !in text
    ensures !Occurs(term, text)
  {
    forall i | 0 <= i <= |text| ensures !OccursAt(term, text, i) {
      if i + |term| <= |text| {
        assert text[i..i + |term|][0] == text[i];
      }
    }
  }

  lemma OccursInItself(term: string)
    ensures Occurs(term, term)
  {
    assert term[0..0 + |term|] == term;
    assert OccursAt(term, term, 0);
  }
}
