/** qa.py: turning a FAISS result row into ranked hits, and packaging an
    answer with its context, citations and confidence. The embedding model,
    the FAISS search and the chat completion are inputs. */
module Qa {
  import opened Common
  import opened Text
  import opened Hits
  import opened Postprocess
  import BuildIndex

  /** The hit for result slot `slot` (0-based), scored `score`, read from record `m`. */
  function MakeHit(slot: nat, score: real, m: MetaRecord): Hit {
    Hit(slot + 1, score, Get(m, "title", ""), Get(m, "url", ""), Get(m, "source", ""),
        Get(m, "orig_id", ""), Take(Get(m, "text", ""), MaxHitText))
  }

  /** The hits for the first n slots of a FAISS row (`scores` = D[0], `ids` = I[0]);
      Err as soon as a slot's index is outside the metadata list. */
  function RetrieveUpTo(meta: seq<MetaRecord>, scores: seq<real>, ids: seq<int>, n: nat): Result<seq<Hit>, string>
    requires |scores| == |ids| && n <= |ids|
  {
    if n == 0 then Ok([])
    else
      match RetrieveUpTo(meta, scores, ids, n - 1)
      case Err(e) => Err(e)
      case Ok(hits) =>
        match PyIndex(ids[n - 1], |meta|)
        case None => Err(IndexError)
        case Some(j) => Ok(hits + [MakeHit(n - 1, scores[n - 1], meta[j])])
  }

  /** All hits of a FAISS row. */
  function RetrieveAll(meta: seq<MetaRecord>, scores: seq<real>, ids: seq<int>): Result<seq<Hit>, string>
    requires |scores| == |ids|
  {
    RetrieveUpTo(meta, scores, ids, |ids|)
  }

  /** Whether every slot of `ids` names a record of a list of length n, counting
      negative slots from the end as Python does. */
  predicate AllSlotsIndex(ids: seq<int>, k: nat, n: nat)
    requires k <= |ids|
  {
    forall s :: 0 <= s < k ==> PyIndex(ids[s], n).Some?
  }

  /** The answering engine: the metadata list is loaded once, at construction. */
  class RagEngine {
    const meta: seq<MetaRecord>

    constructor(meta: seq<MetaRecord>)
      ensures this.meta == meta
    {
      this.meta := meta;
    }

    /** One hit per slot of the FAISS row, in slot order. */
    method Retrieve(scores: seq<real>, ids: seq<int>) returns (r: Result<seq<Hit>, string>)
      requires |scores| == |ids|
      ensures r == RetrieveAll(meta, scores, ids)
    {
      var hits: seq<Hit> := [];
      var rank := 0;
      while rank < |ids|
        invariant 0 <= rank <= |ids|
        invariant RetrieveUpTo(meta, scores, ids, rank) == Ok(hits)
      {
        var idx := PyIndex(ids[rank], |meta|);
        if idx.None? {
          assert RetrieveUpTo(meta, scores, ids, rank + 1) == Err(IndexError);
          RetrieveErrPersists(meta, scores, ids, rank + 1, |ids|);
          return Err(IndexError);
        }
        hits := hits + [MakeHit(rank, scores[rank], meta[idx.value])];
        rank := rank + 1;
      }
      return Ok(hits);
    }

    /** `answer`: retrieve, then package the answer of `llm` (which receives
        the system and the user prompt) with citations and confidence. */
    method Answer(question: string, scores: seq<real>, ids: seq<int>, llm: (string, string) -> string)
      returns (r: Result<AnswerOut, string>)
      requires |scores| == |ids|
      ensures r.Ok? <==> AllSlotsIndex(ids, |ids|, |meta|)
      ensures r.Ok? ==> RetrieveAll(meta, scores, ids).Ok? && r.value == AnswerFor(question, RetrieveAll(meta, scores, ids).value, llm)
    {
      var docs := Retrieve(scores, ids);
      RetrieveOkIff(meta, scores, ids, |ids|);
      if docs.Err? {
        return Err(docs.error);
      }
      return Ok(AnswerFor(question, docs.value, llm));
    }
  }

  lemma {:induction false} RetrieveErrPersists(meta: seq<MetaRecord>, scores: seq<real>, ids: seq<int>, n: nat, m: nat)
    requires |scores| == |ids| && n <= m <= |ids|
    requires RetrieveUpTo(meta, scores, ids, n) == Err(IndexError)
    ensures RetrieveUpTo(meta, scores, ids, m) == Err(IndexError)
  {
    if m > n {
      RetrieveErrPersists(meta, scores, ids, n, m - 1);
    }
  }

  /** Retrieval fails exactly when some slot's index is out of range. */
  lemma {:induction false} RetrieveOkIff(meta: seq<MetaRecord>, scores: seq<real>, ids: seq<int>, n: nat)
    requires |scores| == |ids| && n <= |ids|
    ensures RetrieveUpTo(meta, scores, ids, n).Ok? <==> AllSlotsIndex(ids, n, |meta|)
  {
    if n > 0 {
      RetrieveOkIff(meta, scores, ids, n - 1);
    }
  }

  /** Hit i is the hit of slot i, made from the record that slot names. */
  lemma {:induction false} RetrieveMakesHits(meta: seq<MetaRecord>, scores: seq<real>, ids: seq<int>, n: nat)
    requires |scores| == |ids| && n <= |ids|
    requires RetrieveUpTo(meta, scores, ids, n).Ok?
    ensures var hits := RetrieveUpTo(meta, scores, ids, n).value;
      && |hits| == n
      && forall i :: 0 <= i < n ==>
           && PyIndex(ids[i], |meta|).Some?
           && hits[i] == MakeHit(i, scores[i], meta[PyIndex(ids[i], |meta|).value])
  {
    if n > 0 {
      RetrieveMakesHits(meta, scores, ids, n - 1);
    }
  }

  /** One hit per slot: hit i has rank i + 1, the score of slot i, the fields
      of the record slot i names (missing keys read as ""), and at most the
      first 1500 characters of its text. */
  lemma RetrieveHits(meta: seq<MetaRecord>, scores: seq<real>, ids: seq<int>, n: nat)
    requires |scores| == |ids| && n <= |ids|
    requires RetrieveUpTo(meta, scores, ids, n).Ok?
    ensures var hits := RetrieveUpTo(meta, scores, ids, n).value;
      && |hits| == n
      && forall i :: 0 <= i < n ==>
           && PyIndex(ids[i], |meta|).Some?
           && var m := meta[PyIndex(ids[i], |meta|).value];
           && hits[i].rank == i + 1
           && hits[i].score == scores[i]
           && hits[i].title == Get(m, "title", "")
           && hits[i].url == Get(m, "url", "")
           && hits[i].source == Get(m, "source", "")
           && hits[i].origId == Get(m, "orig_id", "")
           && hits[i].text <= Get(m, "text", "")
           && |hits[i].text| == Min(MaxHitText, |Get(m, "text", "")|)
  {
    RetrieveMakesHits(meta, scores, ids, n);
  }

  /** A padding slot (-1) silently yields the last record again: with a
      row [last index, -1] both hits describe the same record. */
  lemma PaddingSlotRepeatsLastRecord(meta: seq<MetaRecord>, scores: seq<real>)
    requires |meta| > 0 && |scores| == 2
    ensures var r := RetrieveAll(meta, scores, [|meta| - 1, -1]);
      && r.Ok?
      && |r.value| == 2
      && r.value[0].text == r.value[1].text
      && r.value[0].title == r.value[1].title
      && r.value[0].source == r.value[1].source
  {
    var ids := [|meta| - 1, -1];
    RetrieveOkIff(meta, scores, ids, 2);
    RetrieveHits(meta, scores, ids, 2);
  }

  /** The record the build step saves for one chunk, as read back. */
  function SavedRecord(e: BuildIndex.IndexEntry): MetaRecord {
    map["title" := e.title, "url" := e.url, "source" := e.source,
        "orig_doc_index" := NatToString(e.origDocIndex), "chunk_id" := NatToString(e.chunkId),
        "text" := e.text]
  }

  /** The build step never stores an `orig_id`, so every hit over a built
      index carries an empty id, and its text is the start of the chunk. */
  lemma OrigIdAlwaysEmpty(entries: seq<BuildIndex.IndexEntry>, scores: seq<real>, ids: seq<int>)
    requires |scores| == |ids|
    requires RetrieveAll(SavedMeta(entries), scores, ids).Ok?
    ensures forall h :: h in RetrieveAll(SavedMeta(entries), scores, ids).value ==> h.origId == ""
  {
    var meta := SavedMeta(entries);
    RetrieveMakesHits(meta, scores, ids, |ids|);
    var hits := RetrieveAll(meta, scores, ids).value;
    forall h | h in hits ensures h.origId == "" {
      var i :| 0 <= i < |hits| && hits[i] == h;
      var j := PyIndex(ids[i], |meta|).value;
      SavedRecordHasNoOrigId(entries[j]);
    }
  }

  lemma SavedRecordHasNoOrigId(e: BuildIndex.IndexEntry)
    ensures "orig_id" !in SavedRecord(e)
  {
    var k := "orig_id";
    assert k[0] == 'o';
  }

  function SavedMeta(entries: seq<BuildIndex.IndexEntry>): seq<MetaRecord> {
    seq(|entries|, i requires 0 <= i < |entries| => SavedRecord(entries[i]))
  }

  // ---------------------------------------------------------------------
  // Answer packaging
  // ---------------------------------------------------------------------

  /** One context segment: "[rank] SOURCE orig_id — text". */
  function ContextSegment(h: Hit): string {
    "[" + IntToString(h.rank) + "] " + Upper(h.source) + " " + h.origId + " \U{2014} " + h.text
  }

  function Segments(hits: seq<Hit>): (r: seq<string>)
    ensures |r| == |hits|
  {
    seq(|hits|, i requires 0 <= i < |hits| => ContextSegment(hits[i]))
  }

  /** The context: the segments joined by blank lines. */
  function Context(hits: seq<Hit>): string {
    Join(Segments(hits), "\n\n")
  }

  datatype Citation = Citation(rank: int, source: string, id: string, url: string)

  function Citations(hits: seq<Hit>): seq<Citation> {
    seq(|hits|, i requires 0 <= i < |hits| => Citation(hits[i].rank, hits[i].source, hits[i].origId, hits[i].url))
  }

  /** The sum of a sequence of scores. */
  function Sum(xs: seq<real>): real {
    if |xs| == 0 then 0.0 else Sum(xs[..|xs| - 1]) + xs[|xs| - 1]
  }

  /** The scores of the first three hits (fewer when there are fewer hits). */
  function TopScores(hits: seq<Hit>): (r: seq<real>)
    ensures |r| == Min(3, |hits|)
  {
    seq(Min(3, |hits|), i requires 0 <= i < Min(3, |hits|) => hits[i].score)
  }

  /** The mean score of the top three hits, 0 without hits (unrounded). */
  function Confidence(hits: seq<Hit>): real {
    Sum(TopScores(hits)) / (Max(1, Min(3, |hits|)) as real)
  }

  const SystemPrompt: string :=
    "You are a clinical research assistant. "
    + "Answer strictly using the CONTEXT. Cite sources with bracket numbers [1], [2], etc. "
    + "If not answerable from context, say you don't know."

  function UserPrompt(question: string, context: string): string {
    "QUESTION:\n" + question + "\n\nCONTEXT:\n" + context
    + "\n\nReturn a concise, evidence-grounded answer with citations."
  }

  datatype AnswerOut = AnswerOut(answer: string, citations: seq<Citation>, confidence: real)

  /** The answer record for `hits`, given the chat model `llm`. */
  function AnswerFor(question: string, hits: seq<Hit>, llm: (string, string) -> string): AnswerOut {
    AnswerOut(AddDisclaimer(llm(SystemPrompt, UserPrompt(question, Context(hits)))),
              Citations(hits), Confidence(hits))
  }

  /** Citation i is built from hit i, and segment i of the context sits intact
      at its offset in the context. */
  lemma CitationsMatchContext(hits: seq<Hit>, i: nat)
    requires i < |hits|
    ensures |Citations(hits)| == |hits|
    ensures Citations(hits)[i] == Citation(hits[i].rank, hits[i].source, hits[i].origId, hits[i].url)
    ensures var off := JoinOffset(Segments(hits), "\n\n", i);
      && off + |ContextSegment(hits[i])| <= |Context(hits)|
      && Context(hits)[off..off + |ContextSegment(hits[i])|] == ContextSegment(hits[i])
  {
    JoinPartAt(Segments(hits), "\n\n", i);
  }

  /** A hit's segment opens with its bracketed rank, the number its citation
      carries, and ends with its text. */
  lemma ContextSegmentShape(h: Hit)
    ensures var tag := "[" + IntToString(h.rank) + "] ";
      |tag| <= |ContextSegment(h)| && ContextSegment(h)[..|tag|] == tag
    ensures |h.text| <= |ContextSegment(h)|
    ensures ContextSegment(h)[|ContextSegment(h)| - |h.text|..] == h.text
  {
  }

  lemma {:induction false} SumBounds(xs: seq<real>, lo: real, hi: real)
    requires forall i :: 0 <= i < |xs| ==> lo <= xs[i] <= hi
    ensures (|xs| as real) * lo <= Sum(xs) <= (|xs| as real) * hi
  {
    if |xs| > 0 {
      SumBounds(xs[..|xs| - 1], lo, hi);
    }
  }

  /** Confidence is 0 without hits; otherwise it lies within any bounds of the
      top three scores, so between their minimum and maximum. */
  lemma ConfidenceBounds(hits: seq<Hit>, lo: real, hi: real)
    ensures |hits| == 0 ==> Confidence(hits) == 0.0
    ensures |hits| > 0 && (forall i :: 0 <= i < Min(3, |hits|) ==> lo <= hits[i].score <= hi)
            ==> lo <= Confidence(hits) <= hi
  {
    var top := TopScores(hits);
    if |hits| > 0 && (forall i :: 0 <= i < Min(3, |hits|) ==> lo <= hits[i].score <= hi) {
      SumBounds(top, lo, hi);
      var c := |top| as real;
      assert Confidence(hits) == Sum(top) / c;
      DivBounds(Sum(top), c, lo, hi);
    }
  }

  lemma DivBounds(s: real, c: real, lo: real, hi: real)
    requires c > 0.0 && c * lo <= s <= c * hi
    ensures lo <= s / c <= hi
  {
    assert s / c * c == s;
  }

  /** Confidence is the mean of the top scores: times their number it is their sum. */
  lemma ConfidenceIsMean(hits: seq<Hit>)
    requires |hits| > 0
    ensures Confidence(hits) * (Min(3, |hits|) as real) == Sum(TopScores(hits))
  {
  }

  /** Every answer begins with the disclaimer, and the model's reply follows it. */
  lemma AnswerStartsWithDisclaimer(question: string, hits: seq<Hit>, llm: (string, string) -> string)
    ensures var a := AnswerFor(question, hits, llm).answer;
      && a[..|Disclaimer|] == Disclaimer
      && a[|Disclaimer| + 2..] == llm(SystemPrompt, UserPrompt(question, Context(hits)))
  {
  }
}
