/** planner.py: the keyword router that decides which retrievers answer a
    query and concatenates what they return. The retrievers are inputs. */
module Planner {
  import opened Text

  const MedicalKeywords: seq<string> :=
    ["disease", "treatment", "drug", "symptom", "therapy", "cancer", "vaccine", "covid19", "diabetes", "tumor"]

  const GeneralKeywords: seq<string> :=
    ["history", "definition", "overview", "explain", "who is", "what is"]

  /** `any(keyword in q for keyword in keywords)`. */
  predicate AnyKeyword(keywords: seq<string>, q: string) {
    exists i :: 0 <= i < |keywords| && IsSubstring(keywords[i], q)
  }

  /** The three mutually exclusive branches of `route_query`. */
  datatype Route = Medical | GeneralKnowledge | AllSources

  /** The branch a query takes: the medical test on the lower-cased query
      comes first, then the general-knowledge test. */
  function Classify(query: string): Route {
    var q := Lower(query);
    if AnyKeyword(MedicalKeywords, q) then Medical
    else if AnyKeyword(GeneralKeywords, q) then GeneralKnowledge
    else AllSources
  }

  datatype Retriever = PubMed | Arxiv | Wiki

  /** One retriever call with its k. */
  datatype Call = Call(retriever: Retriever, k: int)

  /** The calls each branch makes, in order. */
  function CallsFor(route: Route): seq<Call> {
    match route
    case Medical => [Call(PubMed, 5), Call(Arxiv, 5)]
    case GeneralKnowledge => [Call(Wiki, 3)]
    case AllSources => [Call(PubMed, 3), Call(Arxiv, 3), Call(Wiki, 2)]
  }

  function Run<R>(c: Call, query: string, pubmed: (string, int) -> seq<R>,
                  arxiv: (string, int) -> seq<R>, wiki: (string, int) -> seq<R>): seq<R> {
    match c.retriever
    case PubMed => pubmed(query, c.k)
    case Arxiv => arxiv(query, c.k)
    case Wiki => wiki(query, c.k)
  }

  /** The outputs of `calls`, concatenated in call order. */
  function Gather<R>(calls: seq<Call>, query: string, pubmed: (string, int) -> seq<R>,
                     arxiv: (string, int) -> seq<R>, wiki: (string, int) -> seq<R>): seq<R> {
    if |calls| == 0 then []
    else Gather(calls[..|calls| - 1], query, pubmed, arxiv, wiki) + Run(calls[|calls| - 1], query, pubmed, arxiv, wiki)
  }

  /** `route_query`: returns the aggregated results and the calls it made. */
  method RouteQuery<R>(query: string, pubmed: (string, int) -> seq<R>,
                       arxiv: (string, int) -> seq<R>, wiki: (string, int) -> seq<R>)
    returns (results: seq<R>, calls: seq<Call>)
    ensures calls == CallsFor(Classify(query))
    ensures results == Gather(calls, query, pubmed, arxiv, wiki)
  {
    var queryLower := Lower(query);
    results := [];
    calls := [];
    if AnyKeyword(MedicalKeywords, queryLower) {
      results := results + pubmed(query, 5);
      calls := calls + [Call(PubMed, 5)];
      results := results + arxiv(query, 5);
      calls := calls + [Call(Arxiv, 5)];
      assert Classify(query) == Medical;
      assert results == pubmed(query, 5) + arxiv(query, 5);
    } else if AnyKeyword(GeneralKeywords, queryLower) {
      results := results + wiki(query, 3);
      calls := calls + [Call(Wiki, 3)];
      assert Classify(query) == GeneralKnowledge;
      assert results == wiki(query, 3);
    } else {
      results := results + pubmed(query, 3);
      calls := calls + [Call(PubMed, 3)];
      results := results + arxiv(query, 3);
      calls := calls + [Call(Arxiv, 3)];
      results := results + wiki(query, 2);
      calls := calls + [Call(Wiki, 2)];
      assert Classify(query) == AllSources;
      assert results == pubmed(query, 3) + arxiv(query, 3) + wiki(query, 2);
    }
    RouteResults(Classify(query), query, pubmed, arxiv, wiki);
  }

  /** Gathering distributes over concatenation of call lists: results are
      neither dropped nor reordered. */
  lemma {:induction false} GatherAppend<R>(a: seq<Call>, b: seq<Call>, query: string, pubmed: (string, int) -> seq<R>,
                                           arxiv: (string, int) -> seq<R>, wiki: (string, int) -> seq<R>)
    ensures Gather(a + b, query, pubmed, arxiv, wiki) == Gather(a, query, pubmed, arxiv, wiki) + Gather(b, query, pubmed, arxiv, wiki)
  {
    if |b| > 0 {
      var b' := b[..|b| - 1];
      assert a + b == (a + b') + [b[|b| - 1]];
      assert b == b' + [b[|b| - 1]];
      GatherLast(a + b', b[|b| - 1], query, pubmed, arxiv, wiki);
      GatherLast(b', b[|b| - 1], query, pubmed, arxiv, wiki);
      GatherAppend(a, b', query, pubmed, arxiv, wiki);
    } else {
      assert a + b == a;
    }
  }

  /** What each branch returns: medical queries get PubMed(5) then arXiv(5),
      general-knowledge queries exactly Wikipedia(3), all others PubMed(3),
      arXiv(3), then Wikipedia(2). */
  lemma RouteResults<R>(route: Route, query: string, pubmed: (string, int) -> seq<R>,
                        arxiv: (string, int) -> seq<R>, wiki: (string, int) -> seq<R>)
    ensures var g := Gather(CallsFor(route), query, pubmed, arxiv, wiki);
      match route
      case Medical => g == pubmed(query, 5) + arxiv(query, 5)
      case GeneralKnowledge => g == wiki(query, 3)
      case AllSources => g == pubmed(query, 3) + arxiv(query, 3) + wiki(query, 2)
  {
    match route
    case Medical =>
      GatherPair(Call(PubMed, 5), Call(Arxiv, 5), query, pubmed, arxiv, wiki);
    case GeneralKnowledge =>
      GatherOne(Call(Wiki, 3), query, pubmed, arxiv, wiki);
    case AllSources =>
      GatherPair(Call(PubMed, 3), Call(Arxiv, 3), query, pubmed, arxiv, wiki);
      GatherLast([Call(PubMed, 3), Call(Arxiv, 3)], Call(Wiki, 2), query, pubmed, arxiv, wiki);
      assert [Call(PubMed, 3), Call(Arxiv, 3)] + [Call(Wiki, 2)] == CallsFor(AllSources);
  }

  lemma GatherOne<R>(c: Call, query: string, pubmed: (string, int) -> seq<R>,
                     arxiv: (string, int) -> seq<R>, wiki: (string, int) -> seq<R>)
    ensures Gather([c], query, pubmed, arxiv, wiki) == Run(c, query, pubmed, arxiv, wiki)
  {
    assert [c][..0] == [];
  }

  lemma GatherPair<R>(c: Call, d: Call, query: string, pubmed: (string, int) -> seq<R>,
                      arxiv: (string, int) -> seq<R>, wiki: (string, int) -> seq<R>)
    ensures Gather([c, d], query, pubmed, arxiv, wiki)
            == Run(c, query, pubmed, arxiv, wiki) + Run(d, query, pubmed, arxiv, wiki)
  {
    GatherOne(c, query, pubmed, arxiv, wiki);
    assert [c, d][..1] == [c];
  }

  lemma GatherLast<R>(calls: seq<Call>, c: Call, query: string, pubmed: (string, int) -> seq<R>,
                      arxiv: (string, int) -> seq<R>, wiki: (string, int) -> seq<R>)
    ensures Gather(calls + [c], query, pubmed, arxiv, wiki)
            == Gather(calls, query, pubmed, arxiv, wiki) + Run(c, query, pubmed, arxiv, wiki)
  {
    assert (calls + [c])[..|calls|] == calls;
  }

  /** A medical query never calls the encyclopedic source, and a general
      knowledge query calls nothing else. */
  lemma RouteCalls(query: string)
    ensures Classify(query) == Medical ==> forall c :: c in CallsFor(Classify(query)) ==> c.retriever != Wiki
    ensures Classify(query) == GeneralKnowledge ==> forall c :: c in CallsFor(Classify(query)) ==> c.retriever == Wiki
    ensures Classify(query) == Medical <==> AnyKeyword(MedicalKeywords, Lower(query))
  {
  }

  lemma LowerUpper(s: string)
    ensures Lower(Upper(s)) == Lower(s)
  {
    assert forall i :: 0 <= i < |s| ==> LowerChar(UpperChar(s[i])) == LowerChar(s[i]);
  }

  /** Routing ignores ASCII case. */
  lemma ClassifyIgnoresCase(query: string)
    ensures Classify(Upper(query)) == Classify(query)
  {
    LowerUpper(query);
  }

  /** The medical test takes precedence: "what is diabetes" goes to PubMed and
      arXiv although it also contains "what is". */
  lemma WhatIsDiabetesIsMedical()
    ensures AnyKeyword(GeneralKeywords, Lower("what is diabetes"))
    ensures Classify("what is diabetes") == Medical
  {
    var q := Lower("what is diabetes");
    assert q == "what is diabetes";
    assert OccursAt(MedicalKeywords[8], q, 8);
    assert OccursAt(GeneralKeywords[5], q, 0);
  }
}
