/** retrievers.py: source formatting, the failure-to-empty source wrappers,
    their concatenation, and the keyword filter over FAISS hits. The loaders,
    the PubMed wrapper, the embedding model and the FAISS search are inputs. */
module Retrievers {
  import opened Common
  import opened Text
  import opened Hits

  // ---------------------------------------------------------------------
  // format_results
  // ---------------------------------------------------------------------

  /** A document handed back by a loader: a document with page content and
      metadata, or a bare string. */
  datatype RawDoc = LoaderDoc(pageContent: string, metadata: MetaRecord) | PlainText(s: string)

  /** The record for one document, tagged with `source`: the title falls back
      to the first 50 characters of the page content when the metadata title is
      missing or empty; a bare string has no title, no url and itself as text. */
  function FormatOne(doc: RawDoc, source: string): Record {
    match doc
    case LoaderDoc(content, md) =>
      var title := if "title" in md && md["title"] != "" then md["title"] else Take(content, 50);
      Record(title, content, Get(md, "source", ""), source)
    case PlainText(s) => Record("", s, "", source)
  }

  function Formatted(docs: seq<RawDoc>, source: string): (r: seq<Record>)
    ensures |r| == |docs|
  {
    seq(|docs|, i requires 0 <= i < |docs| => FormatOne(docs[i], source))
  }

  /** `format_results`: one record per document, in order. */
  method FormatResults(docs: seq<RawDoc>, source: string) returns (results: seq<Record>)
    ensures results == Formatted(docs, source)
  {
    results := [];
    var i := 0;
    while i < |docs|
      invariant 0 <= i <= |docs|
      invariant results == Formatted(docs[..i], source)
    {
      results := results + [FormatOne(docs[i], source)];
      i := i + 1;
    }
    assert docs[..i] == docs;
  }

  /** Formatting maps documents one by one: it distributes over concatenation. */
  lemma FormattedAppend(a: seq<RawDoc>, b: seq<RawDoc>, source: string)
    ensures Formatted(a + b, source) == Formatted(a, source) + Formatted(b, source)
  {
  }

  /** Every record carries the tag; a loader document keeps its page content as
      text and its metadata `source` as url; its title is empty only when both
      the metadata title and the page content are. */
  lemma FormatOneFields(doc: RawDoc, source: string)
    ensures FormatOne(doc, source).source == source
    ensures doc.LoaderDoc? ==> FormatOne(doc, source).text == doc.pageContent
    ensures doc.LoaderDoc? ==> FormatOne(doc, source).url == Get(doc.metadata, "source", "")
    ensures doc.LoaderDoc? ==>
              (FormatOne(doc, source).title == ""
               <==> Get(doc.metadata, "title", "") == "" && doc.pageContent == "")
    ensures doc.LoaderDoc? && Get(doc.metadata, "title", "") != "" ==>
              FormatOne(doc, source).title == doc.metadata["title"]
    ensures doc.LoaderDoc? && Get(doc.metadata, "title", "") == "" ==>
              FormatOne(doc, source).title == doc.pageContent[..Min(50, |doc.pageContent|)]
    ensures doc.PlainText? ==> FormatOne(doc, source) == Record("", doc.s, "", source)
  {
    if doc.LoaderDoc? && Get(doc.metadata, "title", "") == "" {
      var t := Take(doc.pageContent, 50);
      assert t == doc.pageContent[..|t|];
    }
  }

  // ---------------------------------------------------------------------
  // Source wrappers
  // ---------------------------------------------------------------------

  /** What a call into a library does: raise, or return a value. */
  datatype Fetch<T> = Raised | Returned(value: T)

  /** What the PubMed wrapper's `run` returns: one string, or a list of documents. */
  datatype PubMedReply = Summary(s: string) | DocList(docs: seq<RawDoc>)

  /** `get_pubmed_results`: `run` is the PubMed wrapper; `k` is not passed on. */
  function PubmedResults(query: string, k: int, run: string -> Fetch<PubMedReply>): seq<Record> {
    match run(query)
    case Raised => []
    case Returned(Summary(s)) => Formatted([PlainText(s)], "pubmed")
    case Returned(DocList(docs)) => Formatted(docs, "pubmed")
  }

  /** `get_arxiv_results`: `load(query, k)` is the arXiv loader. */
  function ArxivResults(query: string, k: int, load: (string, int) -> Fetch<seq<RawDoc>>): seq<Record> {
    match load(query, k)
    case Raised => []
    case Returned(docs) => Formatted(docs, "arxiv")
  }

  /** `get_wikipedia_results`: `load(query, k)` is the Wikipedia loader. */
  function WikipediaResults(query: string, k: int, load: (string, int) -> Fetch<seq<RawDoc>>): seq<Record> {
    match load(query, k)
    case Raised => []
    case Returned(docs) => Formatted(docs, "wikipedia")
  }

  /** A wrapper never raises: a failing call gives no records, a successful
      one gives one record per document, tagged with the source's name. */
  lemma WrappersTagAndCount(query: string, k: int, run: string -> Fetch<PubMedReply>,
                            load: (string, int) -> Fetch<seq<RawDoc>>)
    ensures run(query).Raised? ==> PubmedResults(query, k, run) == []
    ensures load(query, k).Raised? ==> ArxivResults(query, k, load) == [] && WikipediaResults(query, k, load) == []
    ensures load(query, k).Returned? ==> |ArxivResults(query, k, load)| == |load(query, k).value|
    ensures load(query, k).Returned? ==> |WikipediaResults(query, k, load)| == |load(query, k).value|
    ensures run(query).Returned? && run(query).value.DocList? ==>
              |PubmedResults(query, k, run)| == |run(query).value.docs|
    ensures forall r :: r in PubmedResults(query, k, run) ==> r.source == "pubmed"
    ensures forall r :: r in ArxivResults(query, k, load) ==> r.source == "arxiv"
    ensures forall r :: r in WikipediaResults(query, k, load) ==> r.source == "wikipedia"
  {
  }

  /** PubMed ignores `k`, and a bare string reply becomes a single record. */
  lemma PubmedIgnoresKAndWrapsString(query: string, k1: int, k2: int, run: string -> Fetch<PubMedReply>)
    ensures PubmedResults(query, k1, run) == PubmedResults(query, k2, run)
    ensures run(query).Returned? && run(query).value.Summary? ==>
              PubmedResults(query, k1, run) == [Record("", run(query).value.s, "", "pubmed")]
  {
  }

  /** `get_all_results`: each source with its default k of 3, in a fixed order. */
  function AllResults(query: string, run: string -> Fetch<PubMedReply>,
                      arxiv: (string, int) -> Fetch<seq<RawDoc>>, wiki: (string, int) -> Fetch<seq<RawDoc>>): seq<Record>
  {
    PubmedResults(query, 3, run) + ArxivResults(query, 3, arxiv) + WikipediaResults(query, 3, wiki)
  }

  method GetAllResults(query: string, run: string -> Fetch<PubMedReply>,
                       arxiv: (string, int) -> Fetch<seq<RawDoc>>, wiki: (string, int) -> Fetch<seq<RawDoc>>)
    returns (results: seq<Record>)
    ensures results == AllResults(query, run, arxiv, wiki)
  {
    var pubmed := PubmedResults(query, 3, run);
    var papers := ArxivResults(query, 3, arxiv);
    var articles := WikipediaResults(query, 3, wiki);
    results := [];
    results := results + pubmed;
    assert results == pubmed;
    results := results + papers;
    results := results + articles;
  }

  /** Position of a source tag in the fixed order pubmed, arxiv, wikipedia. */
  function SourceOrder(tag: string): nat {
    if tag == "pubmed" then 0 else if tag == "arxiv" then 1 else 2
  }

  /** The combined list is grouped by source, in the order pubmed, arxiv, wikipedia. */
  lemma AllResultsGroupedBySource(query: string, run: string -> Fetch<PubMedReply>,
                                  arxiv: (string, int) -> Fetch<seq<RawDoc>>, wiki: (string, int) -> Fetch<seq<RawDoc>>)
    ensures var all := AllResults(query, run, arxiv, wiki);
      forall i, j :: 0 <= i < j < |all| ==> SourceOrder(all[i].source) <= SourceOrder(all[j].source)
  {
    WrappersTagAndCount(query, 3, run, arxiv);
    WrappersTagAndCount(query, 3, run, wiki);
    var p, a, w := PubmedResults(query, 3, run), ArxivResults(query, 3, arxiv), WikipediaResults(query, 3, wiki);
    var all := p + a + w;
    forall i | 0 <= i < |all|
      ensures SourceOrder(all[i].source) == if i < |p| then 0 else if i < |p| + |a| then 1 else 2
    {
      if i < |p| {
        assert all[i] in p;
      } else if i < |p| + |a| {
        assert all[i] == a[i - |p|];
        assert all[i] in a;
      } else {
        assert all[i] == w[i - |p| - |a|];
        assert all[i] in w;
      }
    }
  }

  // ---------------------------------------------------------------------
  // get_faiss_results
  // ---------------------------------------------------------------------

  /** Whether the lower-cased query occurs in the lower-cased "title text". */
  predicate Matches(query: string, m: MetaRecord) {
    IsSubstring(Lower(query), Lower(Get(m, "title", "") + " " + Get(m, "text", "")))
  }

  /** The hit for slot `slot` (0-based): the source defaults to "faiss" when the
      record has none. */
  function FaissHit(slot: nat, score: real, m: MetaRecord): Hit {
    Hit(slot + 1, score, Get(m, "title", ""), Get(m, "url", ""), Get(m, "source", "faiss"),
        Get(m, "orig_id", ""), Take(Get(m, "text", ""), MaxHitText))
  }

  /** The kept hits among the first n slots; Err as soon as a slot's index is
      outside the metadata list, kept or not. */
  function FaissUpTo(query: string, meta: seq<MetaRecord>, scores: seq<real>, ids: seq<int>, n: nat): Result<seq<Hit>, string>
    requires |scores| == |ids| && n <= |ids|
  {
    if n == 0 then Ok([])
    else
      match FaissUpTo(query, meta, scores, ids, n - 1)
      case Err(e) => Err(e)
      case Ok(hits) =>
        match PyIndex(ids[n - 1], |meta|)
        case None => Err(IndexError)
        case Some(j) =>
          if Matches(query, meta[j]) then Ok(hits + [FaissHit(n - 1, scores[n - 1], meta[j])]) else Ok(hits)
  }

  /** The filter loop of `get_faiss_results` over one FAISS row. */
  method GetFaissResults(query: string, meta: seq<MetaRecord>, scores: seq<real>, ids: seq<int>)
    returns (r: Result<seq<Hit>, string>)
    requires |scores| == |ids|
    ensures r == FaissUpTo(query, meta, scores, ids, |ids|)
  {
    var queryLower := Lower(query);
    var hits: seq<Hit> := [];
    var rank := 0;
    while rank < |ids|
      invariant 0 <= rank <= |ids|
      invariant FaissUpTo(query, meta, scores, ids, rank) == Ok(hits)
    {
      var idx := PyIndex(ids[rank], |meta|);
      if idx.None? {
        assert FaissUpTo(query, meta, scores, ids, rank + 1) == Err(IndexError);
        FaissErrPersists(query, meta, scores, ids, rank + 1, |ids|);
        return Err(IndexError);
      }
      var m := meta[idx.value];
      var title := Get(m, "title", "");
      var text := Get(m, "text", "");
      var combined := Lower(title + " " + text);
      if IsSubstring(queryLower, combined) {
        hits := hits + [FaissHit(rank, scores[rank], m)];
      }
      rank := rank + 1;
    }
    return Ok(hits);
  }

  lemma {:induction false} FaissErrPersists(query: string, meta: seq<MetaRecord>, scores: seq<real>, ids: seq<int>, n: nat, m: nat)
    requires |scores| == |ids| && n <= m <= |ids|
    requires FaissUpTo(query, meta, scores, ids, n) == Err(IndexError)
    ensures FaissUpTo(query, meta, scores, ids, m) == Err(IndexError)
  {
    if m > n {
      FaissErrPersists(query, meta, scores, ids, n, m - 1);
    }
  }

  /** The filter fails exactly when some slot's index is out of range. */
  lemma {:induction false} FaissOkIff(query: string, meta: seq<MetaRecord>, scores: seq<real>, ids: seq<int>, n: nat)
    requires |scores| == |ids| && n <= |ids|
    ensures FaissUpTo(query, meta, scores, ids, n).Ok? <==> forall s :: 0 <= s < n ==> PyIndex(ids[s], |meta|).Some?
  {
    if n > 0 {
      FaissOkIff(query, meta, scores, ids, n - 1);
    }
  }

  /** Hit `h` is the hit of slot `h.rank - 1`, whose index is in range and whose
      record matches the query. */
  predicate KeptFrom(query: string, meta: seq<MetaRecord>, scores: seq<real>, ids: seq<int>, h: Hit)
    requires |scores| == |ids|
  {
    && 1 <= h.rank <= |ids|
    && PyIndex(ids[h.rank - 1], |meta|).Some?
    && Matches(query, meta[PyIndex(ids[h.rank - 1], |meta|).value])
    && h == FaissHit(h.rank - 1, scores[h.rank - 1], meta[PyIndex(ids[h.rank - 1], |meta|).value])
  }

  /** Soundness: every kept hit is the hit of a matching slot s, ranked s + 1. */
  lemma {:induction false} FaissHitsSound(query: string, meta: seq<MetaRecord>, scores: seq<real>, ids: seq<int>, n: nat)
    requires |scores| == |ids| && n <= |ids|
    requires FaissUpTo(query, meta, scores, ids, n).Ok?
    ensures forall h <- FaissUpTo(query, meta, scores, ids, n).value :: KeptFrom(query, meta, scores, ids, h)
  {
    if n > 0 {
      FaissHitsSound(query, meta, scores, ids, n - 1);
    }
  }

  /** Kept hits are ranked by slot: ranks lie in 1..n and strictly increase, so
      there is at most one hit per slot. */
  lemma {:induction false} FaissHitsRanked(query: string, meta: seq<MetaRecord>, scores: seq<real>, ids: seq<int>, n: nat)
    requires |scores| == |ids| && n <= |ids|
    requires FaissUpTo(query, meta, scores, ids, n).Ok?
    ensures var hits := FaissUpTo(query, meta, scores, ids, n).value;
      && |hits| <= n
      && (forall i :: 0 <= i < |hits| ==> 1 <= hits[i].rank <= n)
      && (forall i, j :: 0 <= i < j < |hits| ==> hits[i].rank < hits[j].rank)
  {
    if n > 0 {
      FaissHitsRanked(query, meta, scores, ids, n - 1);
    }
  }

  /** Completeness: every matching slot s has a kept hit ranked s + 1. */
  lemma {:induction false} FaissHitsComplete(query: string, meta: seq<MetaRecord>, scores: seq<real>, ids: seq<int>, n: nat, s: nat)
    requires |scores| == |ids| && s < n <= |ids|
    requires FaissUpTo(query, meta, scores, ids, n).Ok?
    requires PyIndex(ids[s], |meta|).Some? && Matches(query, meta[PyIndex(ids[s], |meta|).value])
    ensures exists i :: 0 <= i < |FaissUpTo(query, meta, scores, ids, n).value|
                        && FaissUpTo(query, meta, scores, ids, n).value[i].rank == s + 1
  {
    var prev := FaissUpTo(query, meta, scores, ids, n - 1);
    assert prev.Ok?;
    if s < n - 1 {
      FaissHitsComplete(query, meta, scores, ids, n - 1, s);
      var i :| 0 <= i < |prev.value| && prev.value[i].rank == s + 1;
      assert FaissUpTo(query, meta, scores, ids, n).value[i] == prev.value[i];
    } else {
      var hits := FaissUpTo(query, meta, scores, ids, n).value;
      assert hits[|hits| - 1].rank == s + 1;
    }
  }

  /** A kept hit's text is at most 1500 characters, cut from the record's text;
      its source is "faiss" when the record has no source key. */
  lemma FaissHitFields(slot: nat, score: real, m: MetaRecord)
    ensures |FaissHit(slot, score, m).text| <= MaxHitText
    ensures FaissHit(slot, score, m).text <= Get(m, "text", "")
    ensures "source" !in m ==> FaissHit(slot, score, m).source == "faiss"
    ensures "source" in m ==> FaissHit(slot, score, m).source == m["source"]
  {
  }

  lemma EmptyStringOccurs(s: string)
    ensures IsSubstring("", s)
  {
    assert OccursAt("", s, 0);
  }

  /** An empty query matches every record, so every slot gives a hit. */
  lemma {:induction false} EmptyQueryKeepsEverySlot(meta: seq<MetaRecord>, scores: seq<real>, ids: seq<int>, n: nat)
    requires |scores| == |ids| && n <= |ids|
    requires FaissUpTo("", meta, scores, ids, n).Ok?
    ensures |FaissUpTo("", meta, scores, ids, n).value| == n
  {
    if n > 0 {
      EmptyQueryKeepsEverySlot(meta, scores, ids, n - 1);
      var m := meta[PyIndex(ids[n - 1], |meta|).value];
      assert Lower("") == "";
      EmptyStringOccurs(Lower(Get(m, "title", "") + " " + Get(m, "text", "")));
    }
  }
}
