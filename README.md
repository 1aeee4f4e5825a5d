# Health research copilot: retrieval pipeline model

A Dafny model of the retrieval pipeline of a health research assistant. The
embedding model, the FAISS vector index, the chat model and every HTTP request
are replaced by inputs. The model covers what the Python code does around them:

- **Offline build** (`BuildIndex`, build_index.py). Raw corpus records are
  normalised through field aliases. Each text is cut into sliding windows of
  words. The build loop lays out the chunk texts and the metadata records side
  by side, then embeds the texts batch by batch, so vector i always belongs to
  record i.
- **Hits and answers** (`Qa`, qa.py; `Postprocess`, postprocess.py).
  `RagEngine` maps a FAISS result row (scores `D[0]`, indices `I[0]`) and the
  metadata list to ranked hits. `answer` builds the context string, the
  citations and the mean-of-top-three confidence, and puts the safety
  disclaimer in front of the chat model's reply.
- **Retrievers** (`Retrievers`, retrievers.py). This covers:
  - formatting of loader documents;
  - the PubMed, arXiv and Wikipedia wrappers, which turn any failure into no
    records;
  - their fixed-order concatenation;
  - the case-insensitive keyword filter over FAISS hits.
- **Router** (`Planner`, planner.py). The keyword classification picks one of
  three branches, and the retrievers' outputs are concatenated in call order.
- **Fallback search** (`App`, app.py). EuropePMC, arXiv, ClinicalTrials.gov,
  Semantic Scholar and Wikipedia responses are mapped to records, with each
  source's label, link and snippet truncation. It also covers the snippet cut
  of `query_europepmc`.

`Common` holds `Option`/`Result`. `Text` models the Python string primitives
the code relies on: `str.split()`, `str.strip()` with Python's whitespace set,
`" ".join`, slicing with clipped and negative bounds, ASCII `lower`/`upper`,
the `in` substring test and `str(int)`. `Hits` holds the dictionaries shared
by qa.py and retrievers.py, and Python list indexing with negative indices.

Where the code departs from what its comments and names suggest, the model follows the code:

- `chunk_text_words` emits `ceil(n / (chunk_size - overlap))` chunks, not
  `ceil((n - overlap) / (chunk_size - overlap))` (`BuildIndex.ChunkCount`).
- A text with `chunk_size - overlap < n <= chunk_size` words gives at least two
  chunks, not one (exactly two when `n <= 2 * (chunk_size - overlap)`, as with the
  defaults 400 and 50). The second lies entirely inside the first
  (`BuildIndex.RedundantTailChunk`).
- The confidence is a plain mean of raw inner-product scores. It is not
  confined to [0, 1], and it can be 0 with hits present
  (`Qa.ConfidenceBounds` states only what the code guarantees).
- `retrieve` has no guard for FAISS's `-1` padding slots. `meta[-1]` silently
  repeats the last record (`Qa.PaddingSlotRepeatsLastRecord`), and an index
  outside the list raises, which is modelled as `Err`.
- The build never writes an `orig_id` key, so every retrieved id is empty
  (`Qa.OrigIdAlwaysEmpty`).
- The fallback chunk `t[:chunk_size]` can never be used, because blank texts
  are skipped first (`BuildIndex.FallbackChunkUnreachable`).

## Model

| member | source | states |
|---|---|---|
| Text.WordsEmptyIffBlank | build_index.py:28-30 | `str.split()` yields no words exactly when every character is whitespace |
| Text.SplitJoinRoundTrip | build_index.py:28-35 | splitting the single-space join of whitespace-free words gives those words back |
| Text.StripEmptyIffBlank | build_index.py:96 | `strip()` leaves nothing exactly when the text is all whitespace |
| Text.JoinPartAt | qa.py:33 | in a join, part k sits intact at its computed offset |
| Text.JoinSeparatorAt | qa.py:33 | in a join, consecutive parts are separated by exactly the separator, and the next part starts right after it |
| BuildIndex.FirstOf | build_index.py:71-74 | an `or`-chain of aliases yields a non-empty value or the default |
| BuildIndex.FirstOfPicksFirstPresent | build_index.py:71-74 | the first alias with a non-empty value wins |
| BuildIndex.FirstOfFallsBack | build_index.py:71-74 | with no alias present the default is used |
| BuildIndex.NormalizeDoc | build_index.py:66-75 | a normalised document always has a source; a titled document always has a text |
| BuildIndex.NormalizeDocFields | build_index.py:71-75 | each field is its first present alias, in the fixed order; text falls back to the title, title and url to "", source to "pubmed" |
| BuildIndex.NormalizeIdempotent | build_index.py:66-75 | normalising a normalised document changes nothing |
| BuildIndex.ChunkTextWords | build_index.py:26-37 | the while loop returns the window sequence `ChunkWords` of the text's words |
| BuildIndex.WindowAt | build_index.py:33-36 | window j exists iff its start `start + j*stride` is a word position, and it is the clipped slice from there joined by spaces |
| BuildIndex.ChunkAt | build_index.py:32-36 | chunk j exists iff its start `ChunkStart(j)` is a word position, and it is the words `[start, start+chunk_size)` (clipped) joined by spaces |
| BuildIndex.ChunkStartIsProduct | build_index.py:33-36 | chunk j starts `j*(chunk_size-overlap)` words in |
| BuildIndex.ChunkStartsIncrease | build_index.py:33-36 | later chunks start at least one stride further on |
| BuildIndex.ChunkCount | build_index.py:33-36 | the loop emits exactly `ceil(n / (chunk_size - overlap))` chunks |
| BuildIndex.SingleChunkIff | build_index.py:33-36 | a non-empty text gives one chunk iff its words fit in one stride |
| BuildIndex.RedundantTailChunk | build_index.py:33-36 | with `stride < n <= chunk_size` a second chunk follows the one that already holds every word |
| BuildIndex.ChunkWordsOfChunk | build_index.py:32-36 | re-splitting chunk j gives exactly its window of words, between 1 and chunk_size of them |
| BuildIndex.ChunkOfTextResplits | build_index.py:28-36 | for the chunks of a text, re-splitting chunk j gives back that text's words from the chunk's start, between 1 and chunk_size of them |
| BuildIndex.ChunksCoverEveryWord | build_index.py:33-36 | with `0 <= overlap < chunk_size` every word lies in some chunk's window |
| BuildIndex.ChunksEmptyIffBlank | build_index.py:28-30 | the chunker returns [] exactly when the text is blank |
| BuildIndex.ChunkDocument | build_index.py:95-100 | a blank text gives no chunks, otherwise the chunker's output (with the `t[:chunk_size]` fallback) |
| BuildIndex.FallbackChunkUnreachable | build_index.py:96-100 | after the blank check the fallback chunk is never taken: a document's chunks are the chunker's output |
| BuildIndex.AppendChunks | build_index.py:101-111 | the inner loop appends one record per chunk with chunk ids 0, 1, ... and keeps `texts[i] == meta[i].text` |
| BuildIndex.ChunkAll | build_index.py:92-111 | the outer loop produces the layout `MetaOf(documents)` with `texts` aligned to `meta` |
| BuildIndex.EmbedInBatches | build_index.py:120-125 | batching and stacking keep order: vector i is the embedding of text i, one vector per text |
| BuildIndex.Build | build_index.py:85-125 | outcome is no documents, no chunks, a bad batch size, or vectors aligned one-to-one with non-empty metadata |
| BuildIndex.LayoutDescribesChunks | build_index.py:101-111 | every record is chunk `chunk_id` of document `orig_doc_index`, with that document's title, url and source |
| BuildIndex.LayoutOrdered | build_index.py:94-111 | records are strictly ordered by (document index, chunk id) |
| BuildIndex.LayoutLength | build_index.py:101-111 | one record per chunk |
| BuildIndex.LayoutAt | build_index.py:94-111 | chunk c of document d sits at position (chunks before d) + c: none dropped, ids consecutive |
| BuildIndex.BlankDocumentsContributeNothing | build_index.py:95-97 | a blank document has no record |
| BuildIndex.NoChunksIffAllBlank | build_index.py:113-115 | a non-empty corpus builds nothing exactly when every text is blank |
| BuildIndex.TwoShortDocumentsTwoVectors | build_index.py:94-125 | two short non-blank documents give exactly two vectors |
| Hits.PyIndex | qa.py:19 | `meta[idx]` resolves iff `-len <= idx < len`, negative indices counting from the end |
| Qa.RagEngine.constructor | qa.py:9-12 | the engine keeps the metadata list it loaded |
| Qa.RagEngine.Retrieve | qa.py:14-29 | the loop returns the hits `RetrieveAll` of the row, or the IndexError |
| Qa.RetrieveOkIff | qa.py:18-19 | retrieval fails exactly when some slot's index is out of range |
| Qa.RetrieveMakesHits | qa.py:18-28 | hit i is the hit built from slot i's score and the record its index names |
| Qa.RetrieveHits | qa.py:18-28 | one hit per slot: rank i+1, score `D[0][i]`, the record's fields with "" for missing keys, text its first ≤1500 characters |
| Qa.PaddingSlotRepeatsLastRecord | qa.py:18-19 | a `-1` slot yields the last record again |
| Qa.OrigIdAlwaysEmpty | qa.py:26 | over metadata written by the build, every hit's `orig_id` is "" |
| Qa.CitationsMatchContext | qa.py:33-53 | citation i carries hit i's rank, source, id and url, and context segment i sits intact at its offset in the context |
| Qa.ContextSegmentShape | qa.py:33 | a hit's context segment begins with its bracketed rank (the citation's number) and ends with the hit's text |
| Qa.ConfidenceBounds | qa.py:50 | confidence is 0 without hits and otherwise lies within any bounds of the top three scores |
| Qa.ConfidenceIsMean | qa.py:50 | confidence times the number of top scores is their sum |
| Qa.AnswerStartsWithDisclaimer | qa.py:52 | the answer starts with the disclaimer, followed by the chat model's reply |
| Qa.RagEngine.Answer | qa.py:31-55 | answering succeeds iff retrieval does, and packages context, citations and confidence of the retrieved hits |
| Postprocess.AddDisclaimer | postprocess.py:5-6 | result is disclaimer, blank line, answer: prefix, separator, suffix and length |
| Postprocess.StripAfterAdd | postprocess.py:6 | removing the fixed prefix recovers the answer |
| Postprocess.AddDisclaimerInjective | postprocess.py:6 | different answers stay different |
| Postprocess.AddDisclaimerNotIdempotent | postprocess.py:6 | applying it twice gives two disclaimers |
| Retrievers.FormatResults | retrievers.py:15-25 | one record per document, in order |
| Retrievers.FormattedAppend | retrievers.py:18-24 | formatting maps documents one by one (distributes over concatenation) |
| Retrievers.FormatOneFields | retrievers.py:19-24 | tag as source; page content as text; metadata source as url; a non-empty metadata title is kept as the title, otherwise the title falls back to the first 50 characters, empty only if both are; bare strings have no title or url |
| Retrievers.WrappersTagAndCount | retrievers.py:31-60 | a failing wrapper returns []; otherwise every record is tagged with the source name, and arXiv and Wikipedia give one record per loaded document, PubMed one per document of a list result |
| Retrievers.PubmedIgnoresKAndWrapsString | retrievers.py:31-37 | PubMed ignores k; a bare string reply becomes one record |
| Retrievers.GetAllResults | retrievers.py:63-68 | pubmed ++ arxiv ++ wikipedia, each with k = 3 |
| Retrievers.AllResultsGroupedBySource | retrievers.py:63-68 | the combined list is grouped pubmed, arxiv, wikipedia |
| Retrievers.GetFaissResults | retrievers.py:88-110 | the filter loop returns `FaissUpTo` of the row, or the IndexError |
| Retrievers.FaissOkIff | retrievers.py:91-92 | the filter fails exactly when some slot's index is out of range |
| Retrievers.FaissHitsSound | retrievers.py:91-108 | each kept hit is the hit of a slot s with rank s+1, whose index is in range and whose record matches the query |
| Retrievers.FaissHitsRanked | retrievers.py:91-108 | ranks lie in 1..n and strictly increase, so at most one hit per slot |
| Retrievers.FaissHitsComplete | retrievers.py:96-99 | every matching slot is kept |
| Retrievers.FaissHitFields | retrievers.py:105-107 | hit text is at most 1500 characters of the record's text; source defaults to "faiss" only when absent |
| Retrievers.EmptyQueryKeepsEverySlot | retrievers.py:88-99 | the empty query matches everything |
| Planner.RouteQuery | planner.py:15-37 | results are the outputs of the calls `CallsFor(Classify(query))` concatenated in call order |
| Planner.GatherAppend | planner.py:20-37 | concatenation neither drops nor reorders retriever output |
| Planner.RouteResults | planner.py:23-35 | per branch: medical gives pubmed(5) ++ arxiv(5); general gives wiki(3); otherwise pubmed(3) ++ arxiv(3) ++ wiki(2) |
| Planner.RouteCalls | planner.py:23-29 | a medical query never calls the encyclopedic source; a general one calls only it |
| Planner.ClassifyIgnoresCase | planner.py:19 | classification is insensitive to ASCII case |
| Planner.WhatIsDiabetesIsMedical | planner.py:23-28 | "what is diabetes" hits both keyword lists and the medical branch wins |
| App.EpmcSnippetBounds | app.py:126-128 | EuropePMC snippets over 500 characters become their first 500 plus "..."; others are kept; length ≤ 503 |
| App.EllipsizedShape | app.py:169 | arXiv, trial and Scholar texts always end in "...", after the first ≤500 characters |
| App.EpmcMapping | app.py:132-143 | "MED" maps to PUBMED with the pubmed link, "PMC" to PUBMED CENTRAL with the PMC link, anything else to EUROPE PMC with the article link |
| App.EpmcSourceIgnoresCase | app.py:132 | the EuropePMC source code is upper-cased first |
| App.AddEuropePmc | app.py:118-155 | appends one record per paper |
| App.ReadEuropePmcPaper | app.py:125-150 | the loop body builds the paper's record `EpmcRecord` |
| App.AddArxiv | app.py:157-174 | appends entries' records until the first malformed entry |
| App.AddClinicalTrials | app.py:176-192 | appends studies' records until the first malformed study, with the clinicaltrials.gov study link |
| App.AddSemanticScholar | app.py:194-208 | appends one record per item |
| App.FallbackSearch | app.py:113-225 | results are the five sources' records in order; a failing source adds nothing |
| App.UntilMalformedIsPrefix | app.py:164-172 | the records are those of the well-formed prefix, and the next item is malformed |
| App.UntilMalformedComplete | app.py:182-190 | without malformed items, every item gives a record |
| App.EpmcBlockRank | app.py:132-150 | EuropePMC records are labelled PUBMED, PUBMED CENTRAL or EUROPE PMC, none of the other sources' labels |
| App.ArxivBlockRank | app.py:164-172 | arXiv records are labelled ARXIV |
| App.TrialBlockRank | app.py:182-190 | trial records are labelled CLINICALTRIALS.GOV |
| App.ScholarBlockRank | app.py:198-206 | Semantic Scholar records are labelled SEMANTIC SCHOLAR |
| App.WikiBlockRank | app.py:214-221 | the Wikipedia record is labelled WIKIPEDIA |
| App.FallbackOrdered | app.py:118-225 | records appear in the order EuropePMC, arXiv, ClinicalTrials.gov, Semantic Scholar, Wikipedia |
| App.FailingSourceContributesNothing | app.py:118-225 | a failed source counts as an empty one and the total is the sum of the sources |
| App.QueryEuropePmcSnippets | app.py:55-68 | one summary per item; each snippet is a prefix of the abstract of at most 400 characters |

## Left out

- Embedding and FAISS: the sentence-transformer embedding, `faiss.IndexFlatIP` add and search, and numpy arrays are float-vector numerics in foreign libraries. The embedding is the parameter `embed`, and a search result is the pair of rows (scores, indices) taken as input, of equal length.
- The question text and `k` of `retrieve` only reach the encoder and the search, so they are not inputs of `Qa.RagEngine.Retrieve`: the row's length is `k`. The same holds for `k` in `answer` and `get_faiss_results`. `answer`'s question is an input because it goes into the user prompt (`Qa.UserPrompt`), and `get_faiss_results`' query is an input because it drives the substring filter (`Retrievers.Matches`).
- `round(conf, 3)` is float rounding. Confidence is modelled over reals.
- The chat completion is the parameter `llm(system, user)`. Like the source, the model gives it no error handling.
- HTTP, JSON and XML: all `requests`, `json()` and `ElementTree` calls are inputs (`App.Response`, `App.ArxivEntry`, `App.Study`, `App.WikiSummary`). A request error, a status other than 200 or a malformed envelope all read as `Failed`.
- FastAPI endpoints, CORS, `root`, `search` and `safety_filter`. `search` is `safety_filter` followed by `retrieve`, and `retrieve` is modelled.
- The helpers `query_arxiv`, `query_wikipedia`, `query_clinicaltrials` and `query_semantic_scholar` are network calls that no endpoint uses. Only `query_europepmc`'s mapping is modelled.
- Persistence (build_index.py:135-141) writes the index file and then the metadata file, with no atomicity.
- `load_corpus_from_json_and_csv` (directory globs, JSON, pandas).
- The ingestion scripts, config.py, inspect_meta.py, test_faiss_query.py, App.js, `redact_phi` and safety.py (regex substitution).
- src/utils/textsplit.py is not part of this model. The chunker modelled is the fallback defined in build_index.py.
- Python's Unicode `lower()` and `upper()` are modelled as ASCII case mapping only.
- JSON `null` and non-string values are not modelled: records are string-to-string maps and a missing key reads as its default. This also leaves out `str(text)` in `normalize_doc` and `or ""` in the Semantic Scholar text.
- App.ArxivRecord: an Atom `id` element that is present but has no text gives a `null` url in the source. The model treats it like a missing element, which raises and ends the arXiv loop.
- Planner.RouteQuery: `route_query` calls `retrievers.pubmed_search`, `arxiv_search` and `wiki_search`, which retrievers.py does not define. The model takes the three retrievers as abstract functions `(query, k) -> results`. Nothing in app.py calls the router.
- Planner.RouteQuery: the retrievers are total functions, so a retriever that raises is not expressible. `route_query` has no `try`/`except`, so in the source such an exception propagates out of the router.
- BuildIndex.ChunkTextWords: requires `overlap < chunkSize`. build_index.py has no guard, and with `overlap >= chunk_size` and a text with at least one word the step `chunk_size - overlap` at build_index.py:36 is zero or negative, so `i` never grows and the loop at build_index.py:33-36 does not terminate. The model has no non-terminating counterpart.
