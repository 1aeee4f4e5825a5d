/** app.py: how `fallback_search` turns each external source's response into
    records, and the snippet cut of `query_europepmc`. The HTTP requests and
    the JSON and XML parsing are inputs: each source arrives as its list of
    items, or as a failure that happened before any item was read. */
module App {
  import opened Common
  import opened Text
  import opened Hits

  /** A source's response: a failure before its items (request error, a status
      other than 200, a malformed envelope), or its items. */
  datatype Response<T> = Failed | Items(items: seq<T>)

  /** An arXiv Atom entry; a field is None when its element is missing or empty. */
  datatype ArxivEntry = ArxivEntry(title: Option<string>, summary: Option<string>, id: Option<string>)

  /** A ClinicalTrials.gov study; a field is None when its key path is missing. */
  datatype Study = Study(officialTitle: Option<string>, description: Option<MetaRecord>, nctId: Option<string>)

  /** The Wikipedia summary: its top-level fields and `content_urls.desktop.page`. */
  datatype WikiSummary = WikiSummary(fields: MetaRecord, desktopPage: Option<string>)

  // ---------------------------------------------------------------------
  // Truncation
  // ---------------------------------------------------------------------

  /** The EuropePMC snippet: cut to 500 characters plus "..." only when longer. */
  function EpmcSnippet(abstr: string): string {
    if abstr != "" && |abstr| > 500 then abstr[..500] + "..." else abstr
  }

  /** The other sources' text: always cut to 500 characters, then "..." appended. */
  function Ellipsized(s: string): string {
    Take(s, 500) + "..."
  }

  lemma EpmcSnippetBounds(abstr: string)
    ensures |EpmcSnippet(abstr)| <= 503
    ensures |abstr| <= 500 ==> EpmcSnippet(abstr) == abstr
    ensures |abstr| > 500 ==> |EpmcSnippet(abstr)| == 503
                                 && EpmcSnippet(abstr)[..500] == abstr[..500]
                                 && EpmcSnippet(abstr)[500..] == "..."
  {
  }

  /** An ellipsized text always ends in "...", even a short one, and what
      precedes it is the first (at most 500) characters of the input. */
  lemma EllipsizedShape(s: string)
    ensures 3 <= |Ellipsized(s)| <= 503
    ensures Ellipsized(s)[|Ellipsized(s)| - 3..] == "..."
    ensures Ellipsized(s)[..|Ellipsized(s)| - 3] == s[..Min(500, |s|)]
    ensures |s| <= 500 ==> Ellipsized(s) == s + "..."
  {
    assert Take(s, 500) == s[..Min(500, |s|)];
  }

  // ---------------------------------------------------------------------
  // Per-source records
  // ---------------------------------------------------------------------

  /** EuropePMC's source code, upper-cased, gives the tag. */
  function EpmcSource(rawSource: string): string {
    if rawSource == "MED" then "PUBMED"
    else if rawSource == "PMC" then "PUBMED CENTRAL"
    else "EUROPE PMC"
  }

  /** EuropePMC's source code, upper-cased, and the article id give the link. */
  function EpmcUrl(rawSource: string, pmid: string): string {
    if rawSource == "MED" then "https://pubmed.ncbi.nlm.nih.gov/" + pmid + "/"
    else if rawSource == "PMC" then "https://www.ncbi.nlm.nih.gov/pmc/articles/" + pmid + "/"
    else "https://europepmc.org/article/" + rawSource + "/" + pmid
  }

  function EpmcRecord(p: MetaRecord): Record {
    var rawSource := Upper(Get(p, "source", ""));
    var pmid := Get(p, "id", "");
    Record(Get(p, "title", "No Title"), EpmcSnippet(Get(p, "abstractText", "")),
           EpmcUrl(rawSource, pmid), EpmcSource(rawSource))
  }

  /** None where reading the entry raises: a missing or empty title, summary or id. */
  function ArxivRecord(e: ArxivEntry): Option<Record> {
    if e.title.None? || e.summary.None? || e.id.None? then None
    else Some(Record(Strip(e.title.value), Ellipsized(Strip(e.summary.value)), e.id.value, "ARXIV"))
  }

  /** None where reading the study raises: a missing title, description module or NCT id. */
  function TrialRecord(s: Study): Option<Record> {
    if s.officialTitle.None? || s.description.None? || s.nctId.None? then None
    else Some(Record(s.officialTitle.value, Ellipsized(Get(s.description.value, "BriefSummary", "")),
                     "https://clinicaltrials.gov/study/" + s.nctId.value, "CLINICALTRIALS.GOV"))
  }

  function ScholarRecord(item: MetaRecord): Record {
    Record(Get(item, "title", "No Title"), Ellipsized(Get(item, "abstract", "")), Get(item, "url", ""), "SEMANTIC SCHOLAR")
  }

  function WikiRecord(w: WikiSummary): Record {
    Record(Get(w.fields, "title", ""), Get(w.fields, "extract", ""),
           if w.desktopPage.Some? then w.desktopPage.value else "", "WIKIPEDIA")
  }

  /** The records of `items` up to the first one whose reading raises: the
      exception ends the loop, and the records already appended stay. */
  function UntilMalformed<T>(items: seq<T>, read: T -> Option<Record>): seq<Record> {
    if |items| == 0 then []
    else match read(items[0])
      case None => []
      case Some(r) => [r] + UntilMalformed(items[1..], read)
  }

  function EpmcRecords(resp: Response<MetaRecord>): seq<Record> {
    match resp
    case Failed => []
    case Items(papers) => seq(|papers|, i requires 0 <= i < |papers| => EpmcRecord(papers[i]))
  }

  function ArxivRecords(resp: Response<ArxivEntry>): seq<Record> {
    match resp
    case Failed => []
    case Items(entries) => UntilMalformed(entries, ArxivRecord)
  }

  function TrialRecords(resp: Response<Study>): seq<Record> {
    match resp
    case Failed => []
    case Items(studies) => UntilMalformed(studies, TrialRecord)
  }

  function ScholarRecords(resp: Response<MetaRecord>): seq<Record> {
    match resp
    case Failed => []
    case Items(data) => seq(|data|, i requires 0 <= i < |data| => ScholarRecord(data[i]))
  }

  function WikiRecords(resp: Option<WikiSummary>): seq<Record> {
    match resp
    case None => []
    case Some(w) => [WikiRecord(w)]
  }

  /** The result list of `fallback_search`: the sources in a fixed order. */
  function FallbackRecords(epmc: Response<MetaRecord>, arxiv: Response<ArxivEntry>, trials: Response<Study>,
                           scholar: Response<MetaRecord>, wiki: Option<WikiSummary>): seq<Record> {
    EpmcRecords(epmc) + ArxivRecords(arxiv) + TrialRecords(trials) + ScholarRecords(scholar) + WikiRecords(wiki)
  }

  // ---------------------------------------------------------------------
  // fallback_search
  // ---------------------------------------------------------------------

  method AddEuropePmc(results: seq<Record>, resp: Response<MetaRecord>) returns (out: seq<Record>)
    ensures out == results + EpmcRecords(resp)
  {
    out := results;
    if resp.Failed? {
      return;
    }
    var papers := resp.items;
    var i := 0;
    while i < |papers|
      invariant 0 <= i <= |papers|
      invariant |out| == |results| + i && out[..|results|] == results
      invariant forall j :: 0 <= j < i ==> out[|results| + j] == EpmcRecord(papers[j])
    {
      var rec := ReadEuropePmcPaper(papers[i]);
      out := out + [rec];
      i := i + 1;
    }
    assert out == results + EpmcRecords(resp);
  }

  /** The body of the EuropePMC loop of `fallback_search`: one paper's record. */
  method ReadEuropePmcPaper(p: MetaRecord) returns (rec: Record)
    ensures rec == EpmcRecord(p)
  {
    var title := Get(p, "title", "No Title");
    var snippet := Get(p, "abstractText", "");
    if snippet != "" {
      snippet := if |snippet| > 500 then snippet[..500] + "..." else snippet;
    }
    var rawSource := Upper(Get(p, "source", ""));
    var pmid := Get(p, "id", "");
    var source, url;
    if rawSource == "MED" {
      source := "PUBMED";
      url := "https://pubmed.ncbi.nlm.nih.gov/" + pmid + "/";
    } else if rawSource == "PMC" {
      source := "PUBMED CENTRAL";
      url := "https://www.ncbi.nlm.nih.gov/pmc/articles/" + pmid + "/";
    } else {
      source := "EUROPE PMC";
      url := "https://europepmc.org/article/" + rawSource + "/" + pmid;
    }
    rec := Record(title, snippet, url, source);
  }

  method AddArxiv(results: seq<Record>, resp: Response<ArxivEntry>) returns (out: seq<Record>)
    ensures out == results + ArxivRecords(resp)
  {
    out := results;
    if resp.Failed? {
      return;
    }
    var entries := resp.items;
    var i := 0;
    while i < |entries|
      invariant 0 <= i <= |entries|
      invariant out + UntilMalformed(entries[i..], ArxivRecord) == results + UntilMalformed(entries, ArxivRecord)
    {
      var e := entries[i];
      if e.title.None? || e.summary.None? || e.id.None? {
        return;
      }
      out := out + [Record(Strip(e.title.value), Take(Strip(e.summary.value), 500) + "...", e.id.value, "ARXIV")];
      assert entries[i..][1..] == entries[i + 1..];
      i := i + 1;
    }
  }

  method AddClinicalTrials(results: seq<Record>, resp: Response<Study>) returns (out: seq<Record>)
    ensures out == results + TrialRecords(resp)
  {
    out := results;
    if resp.Failed? {
      return;
    }
    var studies := resp.items;
    var i := 0;
    while i < |studies|
      invariant 0 <= i <= |studies|
      invariant out + UntilMalformed(studies[i..], TrialRecord) == results + UntilMalformed(studies, TrialRecord)
    {
      var s := studies[i];
      if s.officialTitle.None? || s.description.None? {
        return;
      }
      var title := s.officialTitle.value;
      var desc := Get(s.description.value, "BriefSummary", "");
      if s.nctId.None? {
        return;
      }
      out := out + [Record(title, Take(desc, 500) + "...", "https://clinicaltrials.gov/study/" + s.nctId.value, "CLINICALTRIALS.GOV")];
      assert studies[i..][1..] == studies[i + 1..];
      i := i + 1;
    }
  }

  method AddSemanticScholar(results: seq<Record>, resp: Response<MetaRecord>) returns (out: seq<Record>)
    ensures out == results + ScholarRecords(resp)
  {
    out := results;
    if resp.Failed? {
      return;
    }
    var data := resp.items;
    var i := 0;
    while i < |data|
      invariant 0 <= i <= |data|
      invariant out == results + ScholarRecords(Items(data[..i]))
    {
      var item := data[i];
      out := out + [Record(Get(item, "title", "No Title"), Take(Get(item, "abstract", ""), 500) + "...",
                           Get(item, "url", ""), "SEMANTIC SCHOLAR")];
      i := i + 1;
    }
    assert data[..i] == data;
  }

  /** `fallback_search`: EuropePMC, arXiv, ClinicalTrials.gov, Semantic
      Scholar, then Wikipedia; a failing source adds nothing and the later
      sources still run. */
  method FallbackSearch(epmc: Response<MetaRecord>, arxiv: Response<ArxivEntry>, trials: Response<Study>,
                        scholar: Response<MetaRecord>, wiki: Option<WikiSummary>)
    returns (results: seq<Record>)
    ensures results == FallbackRecords(epmc, arxiv, trials, scholar, wiki)
  {
    results := [];
    results := AddEuropePmc(results, epmc);
    assert results == EpmcRecords(epmc);
    results := AddArxiv(results, arxiv);
    results := AddClinicalTrials(results, trials);
    results := AddSemanticScholar(results, scholar);
    if wiki.Some? {
      results := results + [WikiRecord(wiki.value)];
    }
  }

  // ---------------------------------------------------------------------
  // Properties
  // ---------------------------------------------------------------------

  /** The upper-cased EuropePMC source decides tag and link: "MED" is PubMed,
      "PMC" is PubMed Central, anything else a EuropePMC article page. */
  lemma EpmcMapping(p: MetaRecord)
    ensures var raw := Upper(Get(p, "source", "")); var id := Get(p, "id", "");
      && (EpmcRecord(p).source == "PUBMED" <==> raw == "MED")
      && (EpmcRecord(p).source == "PUBMED CENTRAL" <==> raw == "PMC")
      && (EpmcRecord(p).source == "EUROPE PMC" <==> raw != "MED" && raw != "PMC")
      && (raw == "MED" ==> EpmcRecord(p).url == "https://pubmed.ncbi.nlm.nih.gov/" + id + "/")
      && (raw == "PMC" ==> EpmcRecord(p).url == "https://www.ncbi.nlm.nih.gov/pmc/articles/" + id + "/")
      && (raw != "MED" && raw != "PMC" ==> EpmcRecord(p).url == "https://europepmc.org/article/" + raw + "/" + id)
  {
  }

  lemma UpperIdempotent(s: string)
    ensures Upper(Upper(s)) == Upper(s)
  {
  }

  /** The EuropePMC source code is read without regard to ASCII case. */
  lemma EpmcSourceIgnoresCase(p: MetaRecord, code: string)
    ensures EpmcRecord(p["source" := Upper(code)]) == EpmcRecord(p["source" := code])
  {
    UpperIdempotent(code);
  }

  /** Reading stops at the first malformed item: the records are those of the
      well-formed prefix, one per item, and the item right after it is malformed. */
  lemma {:induction false} UntilMalformedIsPrefix<T>(items: seq<T>, read: T -> Option<Record>)
    ensures var r := UntilMalformed(items, read);
      && |r| <= |items|
      && (forall i :: 0 <= i < |r| ==> read(items[i]) == Some(r[i]))
      && (|r| < |items| ==> read(items[|r|]).None?)
  {
    if |items| > 0 && read(items[0]).Some? {
      UntilMalformedIsPrefix(items[1..], read);
      var r := UntilMalformed(items, read);
      var rest := UntilMalformed(items[1..], read);
      assert r == [read(items[0]).value] + rest;
      forall i | 0 <= i < |r| ensures read(items[i]) == Some(r[i]) {
        if i > 0 {
          assert items[i] == items[1..][i - 1];
        }
      }
    }
  }

  /** With no malformed item, every item gives a record. */
  lemma {:induction false} UntilMalformedComplete<T>(items: seq<T>, read: T -> Option<Record>)
    requires forall i :: 0 <= i < |items| ==> read(items[i]).Some?
    ensures |UntilMalformed(items, read)| == |items|
  {
    if |items| > 0 {
      assert forall i :: 0 <= i < |items| - 1 ==> items[1..][i] == items[i + 1];
      UntilMalformedComplete(items[1..], read);
    }
  }

  /** Position of a record's tag in the order the sources are queried. */
  function SourceRank(tag: string): nat {
    if tag == "ARXIV" then 1
    else if tag == "CLINICALTRIALS.GOV" then 2
    else if tag == "SEMANTIC SCHOLAR" then 3
    else if tag == "WIKIPEDIA" then 4
    else 0
  }

  lemma {:induction false} UntilMalformedLabel<T>(items: seq<T>, read: T -> Option<Record>, tag: string)
    requires forall x :: read(x).Some? ==> read(x).value.source == tag
    ensures forall r :: r in UntilMalformed(items, read) ==> r.source == tag
  {
    if |items| > 0 && read(items[0]).Some? {
      UntilMalformedLabel(items[1..], read, tag);
    }
  }

  /** Records in non-decreasing source order. */
  predicate RankSorted(rs: seq<Record>) {
    forall i, j :: 0 <= i < j < |rs| ==> SourceRank(rs[i].source) <= SourceRank(rs[j].source)
  }

  lemma AppendBlock(a: seq<Record>, b: seq<Record>, k: nat)
    requires RankSorted(a) && forall r :: r in a ==> SourceRank(r.source) <= k
    requires forall r :: r in b ==> SourceRank(r.source) == k
    ensures RankSorted(a + b) && forall r :: r in a + b ==> SourceRank(r.source) <= k
  {
    var ab := a + b;
    forall i, j | 0 <= i < j < |ab| ensures SourceRank(ab[i].source) <= SourceRank(ab[j].source) {
      if i < |a| {
        assert ab[i] in a;
        if j >= |a| {
          assert ab[j] in b;
        }
      } else {
        assert ab[i] in b && ab[j] in b;
      }
    }
  }

  /** The sources appear in the order EuropePMC, arXiv, ClinicalTrials.gov,
      Semantic Scholar, Wikipedia. */
  lemma FallbackOrdered(epmc: Response<MetaRecord>, arxiv: Response<ArxivEntry>, trials: Response<Study>,
                        scholar: Response<MetaRecord>, wiki: Option<WikiSummary>)
    ensures RankSorted(FallbackRecords(epmc, arxiv, trials, scholar, wiki))
  {
    var e, a, t, s, w := EpmcRecords(epmc), ArxivRecords(arxiv), TrialRecords(trials), ScholarRecords(scholar), WikiRecords(wiki);
    EpmcBlockRank(epmc);
    ArxivBlockRank(arxiv);
    TrialBlockRank(trials);
    ScholarBlockRank(scholar);
    WikiBlockRank(wiki);
    AppendBlock([], e, 0);
    assert [] + e == e;
    var ea := e + a;
    AppendBlock(e, a, 1);
    var eat := ea + t;
    AppendBlock(ea, t, 2);
    var eats := eat + s;
    AppendBlock(eat, s, 3);
    AppendBlock(eats, w, 4);
    assert FallbackRecords(epmc, arxiv, trials, scholar, wiki) == eats + w;
  }

  /** EuropePMC's records carry one of its own three labels, none of the
      other sources' labels. */
  lemma EpmcBlockRank(epmc: Response<MetaRecord>)
    ensures forall r :: r in EpmcRecords(epmc) ==>
      r.source in {"PUBMED", "PUBMED CENTRAL", "EUROPE PMC"} && SourceRank(r.source) == 0
  {
  }

  lemma ArxivBlockRank(arxiv: Response<ArxivEntry>)
    ensures forall r :: r in ArxivRecords(arxiv) ==> r.source == "ARXIV" && SourceRank(r.source) == 1
  {
    if arxiv.Items? {
      UntilMalformedLabel(arxiv.items, ArxivRecord, "ARXIV");
    }
  }

  lemma TrialBlockRank(trials: Response<Study>)
    ensures forall r :: r in TrialRecords(trials) ==> r.source == "CLINICALTRIALS.GOV" && SourceRank(r.source) == 2
  {
    if trials.Items? {
      UntilMalformedLabel(trials.items, TrialRecord, "CLINICALTRIALS.GOV");
    }
  }

  lemma ScholarBlockRank(scholar: Response<MetaRecord>)
    ensures forall r :: r in ScholarRecords(scholar) ==> r.source == "SEMANTIC SCHOLAR" && SourceRank(r.source) == 3
  {
  }

  lemma WikiBlockRank(wiki: Option<WikiSummary>)
    ensures forall r :: r in WikiRecords(wiki) ==> r.source == "WIKIPEDIA" && SourceRank(r.source) == 4
  {
  }

  /** A failing source contributes nothing, and the other sources' records
      are the same as if it had answered with no items. */
  lemma FailingSourceContributesNothing(epmc: Response<MetaRecord>, arxiv: Response<ArxivEntry>, trials: Response<Study>,
                                        scholar: Response<MetaRecord>, wiki: Option<WikiSummary>)
    ensures FallbackRecords(Failed, arxiv, trials, scholar, wiki) == FallbackRecords(Items([]), arxiv, trials, scholar, wiki)
    ensures FallbackRecords(epmc, Failed, trials, scholar, wiki) == FallbackRecords(epmc, Items([]), trials, scholar, wiki)
    ensures FallbackRecords(epmc, arxiv, Failed, scholar, wiki) == FallbackRecords(epmc, arxiv, Items([]), scholar, wiki)
    ensures FallbackRecords(epmc, arxiv, trials, Failed, wiki) == FallbackRecords(epmc, arxiv, trials, Items([]), wiki)
    ensures |FallbackRecords(epmc, arxiv, trials, scholar, wiki)|
            == |EpmcRecords(epmc)| + |ArxivRecords(arxiv)| + |TrialRecords(trials)| + |ScholarRecords(scholar)| + |WikiRecords(wiki)|
  {
  }

  // ---------------------------------------------------------------------
  // query_europepmc
  // ---------------------------------------------------------------------

  /** A record of the `query_*` helpers. */
  datatype Summary = Summary(title: string, snippet: string, source: string)

  /** `query_europepmc`'s mapping: the snippet is the abstract cut to 400 characters. */
  function QueryEuropePmc(resp: Response<MetaRecord>): seq<Summary> {
    match resp
    case Failed => []
    case Items(data) =>
      seq(|data|, i requires 0 <= i < |data| =>
        Summary(Get(data[i], "title", "EuropePMC"), Take(Get(data[i], "abstractText", ""), 400), "EUROPE PMC"))
  }

  /** One summary per item, each snippet a prefix of its abstract of at most 400 characters. */
  lemma QueryEuropePmcSnippets(resp: Response<MetaRecord>)
    ensures resp.Failed? ==> QueryEuropePmc(resp) == []
    ensures resp.Items? ==> |QueryEuropePmc(resp)| == |resp.items|
    ensures resp.Items? ==> forall i :: 0 <= i < |resp.items| ==>
              && |QueryEuropePmc(resp)[i].snippet| <= 400
              && QueryEuropePmc(resp)[i].snippet <= Get(resp.items[i], "abstractText", "")
              && (|Get(resp.items[i], "abstractText", "")| <= 400 ==>
                    QueryEuropePmc(resp)[i].snippet == Get(resp.items[i], "abstractText", ""))
  {
  }
}
