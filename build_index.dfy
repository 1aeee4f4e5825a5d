/**
 * The offline build of build_index.py: normalising raw corpus records, the
 * sliding-window word chunker, and the loop that lays out the chunk texts and
 * the metadata records that the vector index is aligned with.
 *
 * The sentence embedding is a parameter `embed: string -> V`; the flat
 * inner-product index is the sequence of vectors in insertion order.
 */
module BuildIndex {
  import opened Common
  import opened Text

  // =================================================================== normalize_doc

  /** A raw corpus record: field name to value. For Python's `or`, an absent
      key and an empty value are both falsy. */
  type RawRecord = map<string, string>

  /** The canonical document every corpus record is normalised into. */
  datatype Document = Document(title: string, text: string, url: string, source: string)

  function Lookup(item: RawRecord, key: string): string {
    if key in item then item[key] else ""
  }

  /** `item.get(keys[0]) or item.get(keys[1]) or ... or default`. */
  function FirstOf(item: RawRecord, keys: seq<string>, default: string): (r: string)
    ensures r != "" || r == default
  {
    if keys == [] then default
    else if Lookup(item, keys[0]) != "" then Lookup(item, keys[0])
    else FirstOf(item, keys[1..], default)
  }

  /** `keys[i]` is the first alias with a non-empty value in `item`. */
  predicate FirstPresentAt(item: RawRecord, keys: seq<string>, i: nat) {
    && i < |keys|
    && Lookup(item, keys[i]) != ""
    && forall j :: 0 <= j < i ==> Lookup(item, keys[j]) == ""
  }

  /** No alias has a non-empty value in `item`. */
  predicate NonePresent(item: RawRecord, keys: seq<string>) {
    forall j :: 0 <= j < |keys| ==> Lookup(item, keys[j]) == ""
  }

  /** The first alias with a value wins. */
  lemma {:induction false} FirstOfPicksFirstPresent(item: RawRecord, keys: seq<string>, default: string, i: nat)
    requires FirstPresentAt(item, keys, i)
    ensures FirstOf(item, keys, default) == Lookup(item, keys[i])
  {
    if i > 0 {
      assert Lookup(item, keys[0]) == "";
      FirstOfPicksFirstPresent(item, keys[1..], default, i - 1);
    }
  }

  /** With no alias present, the default is used. */
  lemma {:induction false} FirstOfFallsBack(item: RawRecord, keys: seq<string>, default: string)
    requires NonePresent(item, keys)
    ensures FirstOf(item, keys, default) == default
  {
    if keys != [] {
      assert Lookup(item, keys[0]) == "";
      FirstOfFallsBack(item, keys[1..], default);
    }
  }

  const TitleKeys: seq<string> := ["title", "name"]
  const TextKeys: seq<string> := ["text", "abstract", "content", "body"]
  const UrlKeys: seq<string> := ["url", "link"]
  const SourceKeys: seq<string> := ["source", "collection"]
  const DefaultSource: string := "pubmed"

  /** normalize_doc: resolve each field from its aliases in priority order. */
  function NormalizeDoc(item: RawRecord): (d: Document)
    ensures d.source != ""
    ensures d.title != "" ==> d.text != ""
  {
    var t := FirstOf(item, TitleKeys, "");
    Document(t, FirstOf(item, TextKeys, t), FirstOf(item, UrlKeys, ""), FirstOf(item, SourceKeys, DefaultSource))
  }

  /** Each field of a normalised document is its first present alias; the text
      falls back to the title, title and url to "", the source to "pubmed". */
  lemma NormalizeDocFields(item: RawRecord)
    ensures forall i: nat :: FirstPresentAt(item, TitleKeys, i) ==> NormalizeDoc(item).title == Lookup(item, TitleKeys[i])
    ensures NonePresent(item, TitleKeys) ==> NormalizeDoc(item).title == ""
    ensures forall i: nat :: FirstPresentAt(item, TextKeys, i) ==> NormalizeDoc(item).text == Lookup(item, TextKeys[i])
    ensures NonePresent(item, TextKeys) ==> NormalizeDoc(item).text == NormalizeDoc(item).title
    ensures forall i: nat :: FirstPresentAt(item, UrlKeys, i) ==> NormalizeDoc(item).url == Lookup(item, UrlKeys[i])
    ensures NonePresent(item, UrlKeys) ==> NormalizeDoc(item).url == ""
    ensures forall i: nat :: FirstPresentAt(item, SourceKeys, i) ==> NormalizeDoc(item).source == Lookup(item, SourceKeys[i])
    ensures NonePresent(item, SourceKeys) ==> NormalizeDoc(item).source == DefaultSource
  {
    var t := FirstOf(item, TitleKeys, "");
    forall i: nat | FirstPresentAt(item, TitleKeys, i) ensures t == Lookup(item, TitleKeys[i]) {
      FirstOfPicksFirstPresent(item, TitleKeys, "", i);
    }
    forall i: nat | FirstPresentAt(item, TextKeys, i) ensures FirstOf(item, TextKeys, t) == Lookup(item, TextKeys[i]) {
      FirstOfPicksFirstPresent(item, TextKeys, t, i);
    }
    forall i: nat | FirstPresentAt(item, UrlKeys, i) ensures FirstOf(item, UrlKeys, "") == Lookup(item, UrlKeys[i]) {
      FirstOfPicksFirstPresent(item, UrlKeys, "", i);
    }
    forall i: nat | FirstPresentAt(item, SourceKeys, i)
      ensures FirstOf(item, SourceKeys, DefaultSource) == Lookup(item, SourceKeys[i])
    {
      FirstOfPicksFirstPresent(item, SourceKeys, DefaultSource, i);
    }
    if NonePresent(item, TitleKeys) { FirstOfFallsBack(item, TitleKeys, ""); }
    if NonePresent(item, TextKeys) { FirstOfFallsBack(item, TextKeys, t); }
    if NonePresent(item, UrlKeys) { FirstOfFallsBack(item, UrlKeys, ""); }
    if NonePresent(item, SourceKeys) { FirstOfFallsBack(item, SourceKeys, DefaultSource); }
  }

  /** The record a normalised document is written back as. */
  function AsRecord(d: Document): RawRecord {
    map["title" := d.title, "text" := d.text, "url" := d.url, "source" := d.source]
  }

  /** Normalising is idempotent: a normalised document, read back as a raw
      record, normalises to itself. */
  lemma NormalizeIdempotent(item: RawRecord)
    ensures NormalizeDoc(AsRecord(NormalizeDoc(item))) == NormalizeDoc(item)
  {
    var d := NormalizeDoc(item);
    var r := AsRecord(d);
    if d.title != "" {
      FirstOfPicksFirstPresent(r, TitleKeys, "", 0);
    } else {
      FirstOfFallsBack(r, TitleKeys, "");
    }
    if d.text != "" {
      FirstOfPicksFirstPresent(r, TextKeys, d.title, 0);
    } else {
      FirstOfFallsBack(r, TextKeys, d.title);
    }
    if d.url != "" {
      FirstOfPicksFirstPresent(r, UrlKeys, "", 0);
    } else {
      FirstOfFallsBack(r, UrlKeys, "");
    }
    FirstOfPicksFirstPresent(r, SourceKeys, DefaultSource, 0);
  }

  // =================================================================== chunk_text_words

  /** The windows the chunking loop emits from word position `start` on:
      `" ".join(words[i:i + chunkSize])` for i = start, start + stride, ... < |words|. */
  function WindowsFrom(words: seq<string>, start: nat, chunkSize: int, stride: nat): seq<string>
    requires stride > 0
    decreases |words| - start
  {
    if start >= |words| then []
    else [Window(words, start, chunkSize)] + WindowsFrom(words, start + stride, chunkSize, stride)
  }

  /** `" ".join(words[at:at + chunkSize])`. */
  function Window(words: seq<string>, at: nat, chunkSize: int): string {
    Join(Slice(words, at, at + chunkSize), " ")
  }

  /** What chunk_text_words returns for the word list of its text. */
  function ChunkWords(words: seq<string>, chunkSize: int, overlap: int): seq<string>
    requires overlap < chunkSize
  {
    WindowsFrom(words, 0, chunkSize, chunkSize - overlap)
  }

  /** chunk_text_words: split on whitespace, then emit a window of `chunkSize`
      words every `chunkSize - overlap` words. Python's loop only terminates
      when `overlap < chunkSize`. */
  method ChunkTextWords(text: string, chunkSize: int, overlap: int) returns (chunks: seq<string>)
    requires overlap < chunkSize
    ensures chunks == ChunkWords(Words(text), chunkSize, overlap)
  {
    var words := Words(text);
    if |words| == 0 {
      return [];
    }
    var stride := chunkSize - overlap;
    ghost var all := ChunkWords(words, chunkSize, overlap);
    chunks := [];
    var i: nat := 0;
    assert chunks + WindowsFrom(words, i, chunkSize, stride) == all;
    while i < |words|
      invariant chunks + WindowsFrom(words, i, chunkSize, stride) == all
      decreases |words| - i
    {
      var chunk := Slice(words, i, i + chunkSize);
      var joined := Join(chunk, " ");
      ghost var before, at := chunks, i;
      chunks := chunks + [joined];
      i := i + stride;
      WindowsFromStep(words, at, i, chunkSize, stride);
      ShiftFirst(before, joined, WindowsFrom(words, i, chunkSize, stride), all);
    }
    assert WindowsFrom(words, i, chunkSize, stride) == [];
    assert chunks + [] == chunks;
  }

  /** One turn of the chunking loop: the windows from `i` are the window at
      `i` followed by the windows one stride on, at `j`. */
  lemma WindowsFromStep(words: seq<string>, i: nat, j: nat, chunkSize: int, stride: nat)
    requires stride > 0 && i < |words| && j == i + stride
    ensures WindowsFrom(words, i, chunkSize, stride)
         == [Join(Slice(words, i, i + chunkSize), " ")] + WindowsFrom(words, j, chunkSize, stride)
  {
    WindowsFromUnfold(words, i, j, chunkSize, stride);
    assert Window(words, i, chunkSize) == Join(Slice(words, i, i + chunkSize), " ");
  }

  lemma WindowsFromUnfold(words: seq<string>, i: nat, j: nat, chunkSize: int, stride: nat)
    requires stride > 0 && i < |words| && j == i + stride
    ensures WindowsFrom(words, i, chunkSize, stride) == [Window(words, i, chunkSize)] + WindowsFrom(words, j, chunkSize, stride)
  {
  }

  /** Moving the first pending element to the emitted ones keeps the whole. */
  lemma ShiftFirst<T>(done: seq<T>, x: T, pending: seq<T>, all: seq<T>)
    requires done + ([x] + pending) == all
    ensures (done + [x]) + pending == all
  {
    assert done + ([x] + pending) == (done + [x]) + pending;
  }

  /** `j * stride`, as j strides: the word position j windows after the first. */
  function Offset(j: nat, stride: nat): nat {
    if j == 0 then 0 else Offset(j - 1, stride) + stride
  }

  lemma {:induction false} OffsetIsProduct(j: nat, stride: nat)
    ensures Offset(j, stride) == j * stride
  {
    if j > 0 {
      OffsetIsProduct(j - 1, stride);
      assert (j - 1) * stride + stride == j * stride;
    }
  }

  /** Window j exists exactly when its start `start + j * stride` is a word
      position, and it is the words from there to `chunkSize` further (clipped),
      joined by spaces. */
  lemma {:induction false} WindowAt(words: seq<string>, start: nat, chunkSize: int, stride: nat, j: nat)
    requires stride > 0
    ensures j < |WindowsFrom(words, start, chunkSize, stride)| <==> start + Offset(j, stride) < |words|
    ensures start + Offset(j, stride) < |words| ==>
              WindowsFrom(words, start, chunkSize, stride)[j] == Window(words, start + Offset(j, stride), chunkSize)
    decreases j
  {
    var ws := WindowsFrom(words, start, chunkSize, stride);
    if start >= |words| {
      assert ws == [];
    } else if j == 0 {
      assert Offset(0, stride) == 0;
      assert ws[0] == Window(words, start, chunkSize);
    } else {
      var rest := WindowsFrom(words, start + stride, chunkSize, stride);
      assert ws == [Window(words, start, chunkSize)] + rest;
      WindowAt(words, start + stride, chunkSize, stride, j - 1);
      assert Offset(j, stride) == Offset(j - 1, stride) + stride;
      assert j < |ws| <==> j - 1 < |rest|;
      if j - 1 < |rest| {
        assert ws[j] == rest[j - 1];
      }
    }
  }

  /** The word position chunk j starts at: j strides of `chunkSize - overlap`. */
  function ChunkStart(j: nat, chunkSize: int, overlap: int): nat
    requires overlap < chunkSize
  {
    Offset(j, chunkSize - overlap)
  }

  /** Chunk j starts `j * (chunkSize - overlap)` words in. */
  lemma ChunkStartIsProduct(j: nat, chunkSize: int, overlap: int)
    requires overlap < chunkSize
    ensures ChunkStart(j, chunkSize, overlap) == j * (chunkSize - overlap)
  {
    OffsetIsProduct(j, chunkSize - overlap);
  }

  /** Chunk j of chunk_text_words, by position: it exists exactly when its
      start is a word position, and it is the words from there to `chunkSize`
      further (clipped), joined by spaces. */
  lemma ChunkAt(words: seq<string>, chunkSize: int, overlap: int, j: nat)
    requires overlap < chunkSize
    ensures j < |ChunkWords(words, chunkSize, overlap)| <==> ChunkStart(j, chunkSize, overlap) < |words|
    ensures j < |ChunkWords(words, chunkSize, overlap)| ==>
              ChunkWords(words, chunkSize, overlap)[j] == Window(words, ChunkStart(j, chunkSize, overlap), chunkSize)
  {
    WindowAt(words, 0, chunkSize, chunkSize - overlap, j);
  }

  lemma {:induction false} WindowCount(words: seq<string>, start: nat, chunkSize: int, stride: nat)
    requires stride > 0 && start <= |words|
    ensures |WindowsFrom(words, start, chunkSize, stride)| == (|words| - start + stride - 1) / stride
    decreases |words| - start
  {
    var n := |words| - start;
    var ws := WindowsFrom(words, start, chunkSize, stride);
    if n == 0 {
      assert ws == [];
      DivIsQuotient(stride - 1, stride, 0);
    } else {
      var rest := WindowsFrom(words, start + stride, chunkSize, stride);
      assert |ws| == 1 + |rest|;
      if n <= stride {
        assert rest == [];
        CeilOne(n, stride);
      } else {
        WindowCount(words, start + stride, chunkSize, stride);
        assert |rest| == (n - stride + stride - 1) / stride;
        CeilStep(n, stride);
      }
    }
  }

  lemma CeilOne(n: int, stride: int)
    requires 0 < n <= stride
    ensures (n + stride - 1) / stride == 1
  {
    DivIsQuotient(n + stride - 1, stride, 1);
  }

  lemma CeilStep(n: int, stride: int)
    requires n > stride > 0
    ensures (n - stride + stride - 1) / stride + 1 == (n + stride - 1) / stride
  {
    var x := n - 1;
    var q := x / stride;
    assert x == q * stride + x % stride && 0 <= x % stride < stride;
    assert (q + 1) * stride == q * stride + stride;
    DivIsQuotient(x + stride, stride, q + 1);
  }

  lemma {:induction false} MulStep(a: int, b: int, d: int)
    requires a < b && d > 0
    ensures a * d + d <= b * d
    decreases b - a
  {
    if b > a + 1 {
      MulStep(a, b - 1, d);
    }
    assert (b - 1) * d + d == b * d;
  }

  /** Division by a positive divisor is characterised by its bounds. */
  lemma DivIsQuotient(x: int, d: int, q: int)
    requires d > 0 && q * d <= x < q * d + d
    ensures x / d == q
  {
    var q' := x / d;
    assert x == q' * d + x % d && 0 <= x % d < d;
    if q' > q {
      MulStep(q, q', d);
    } else if q' < q {
      MulStep(q', q, d);
    }
  }

  /** For n words the loop emits exactly ceil(n / (chunkSize - overlap)) chunks. */
  lemma ChunkCount(words: seq<string>, chunkSize: int, overlap: int)
    requires overlap < chunkSize
    ensures |ChunkWords(words, chunkSize, overlap)| == (|words| + (chunkSize - overlap) - 1) / (chunkSize - overlap)
  {
    WindowCount(words, 0, chunkSize, chunkSize - overlap);
  }

  /** Exactly one chunk is produced iff the words fit in one stride: with
      `stride < n`, a second chunk follows even when all n words fit in the first. */
  lemma SingleChunkIff(words: seq<string>, chunkSize: int, overlap: int)
    requires overlap < chunkSize && |words| > 0
    ensures |ChunkWords(words, chunkSize, overlap)| == 1 <==> |words| <= chunkSize - overlap
  {
    ChunkAt(words, chunkSize, overlap, 0);
    ChunkAt(words, chunkSize, overlap, 1);
  }

  /** With `stride < n <= chunkSize` a second chunk is emitted although it lies
      entirely inside the first: the first holds every word, the second the
      words from `stride` on. */
  lemma RedundantTailChunk(words: seq<string>, chunkSize: int, overlap: int)
    requires 0 <= overlap < chunkSize
    requires chunkSize - overlap < |words| <= chunkSize
    ensures |ChunkWords(words, chunkSize, overlap)| >= 2
    ensures ChunkWords(words, chunkSize, overlap)[0] == Join(words, " ")
    ensures ChunkWords(words, chunkSize, overlap)[1] == Join(words[chunkSize - overlap..], " ")
  {
    var stride := chunkSize - overlap;
    var chunks := ChunkWords(words, chunkSize, overlap);
    ChunkAt(words, chunkSize, overlap, 0);
    ChunkAt(words, chunkSize, overlap, 1);
    assert Slice(words, 0, chunkSize) == words;
    assert Slice(words, stride, stride + chunkSize) == words[stride..];
  }

  /** Every chunk has between 1 and `chunkSize` words: splitting chunk j gives
      back exactly the words of its window. */
  lemma ChunkWordsOfChunk(words: seq<string>, chunkSize: int, overlap: int, j: nat)
    requires 0 < chunkSize && overlap < chunkSize
    requires forall k :: 0 <= k < |words| ==> IsWord(words[k])
    requires j < |ChunkWords(words, chunkSize, overlap)|
    ensures ChunkStart(j, chunkSize, overlap) < |words|
    ensures Words(ChunkWords(words, chunkSize, overlap)[j])
            == words[ChunkStart(j, chunkSize, overlap)..Min(ChunkStart(j, chunkSize, overlap) + chunkSize, |words|)]
    ensures 1 <= |Words(ChunkWords(words, chunkSize, overlap)[j])| <= chunkSize
  {
    var s := ChunkStart(j, chunkSize, overlap);
    ChunkAt(words, chunkSize, overlap, j);
    var e := Min(s + chunkSize, |words|);
    var w := words[s..e];
    assert Slice(words, s, s + chunkSize) == w;
    assert ChunkWords(words, chunkSize, overlap)[j] == Join(w, " ");
    assert forall k :: 0 <= k < |w| ==> IsWord(w[k]) by {
      forall k | 0 <= k < |w| ensures IsWord(w[k]) {
        assert w[k] == words[s + k];
      }
    }
    SplitJoinRoundTrip(w);
  }

  /** For the chunks of an actual text: re-splitting chunk j gives back the
      text's words from the chunk's start, between 1 and `chunkSize` of them. */
  lemma ChunkOfTextResplits(text: string, chunkSize: int, overlap: int, j: nat)
    requires 0 < chunkSize && overlap < chunkSize
    requires j < |ChunkWords(Words(text), chunkSize, overlap)|
    ensures var words := Words(text);
      var s := ChunkStart(j, chunkSize, overlap);
      && s < |words|
      && Words(ChunkWords(words, chunkSize, overlap)[j]) == words[s..Min(s + chunkSize, |words|)]
      && 1 <= |Words(ChunkWords(words, chunkSize, overlap)[j])| <= chunkSize
  {
    WordsAreWords(text);
    ChunkWordsOfChunk(Words(text), chunkSize, overlap, j);
  }

  /** With `0 <= overlap < chunkSize` every word lies in the window of some chunk. */
  lemma ChunksCoverEveryWord(words: seq<string>, chunkSize: int, overlap: int, k: nat)
    requires 0 <= overlap < chunkSize && k < |words|
    ensures exists j: nat :: j < |ChunkWords(words, chunkSize, overlap)|
                        && ChunkStart(j, chunkSize, overlap) <= k < ChunkStart(j, chunkSize, overlap) + chunkSize
  {
    var j := StrideContaining(k, chunkSize - overlap);
    ChunkAt(words, chunkSize, overlap, j);
  }

  /** The stride that position `k` falls in. */
  lemma {:induction false} StrideContaining(k: nat, stride: nat) returns (j: nat)
    requires stride > 0
    ensures Offset(j, stride) <= k < Offset(j, stride) + stride
    decreases k
  {
    if k < stride {
      j := 0;
    } else {
      var i := StrideContaining(k - stride, stride);
      j := i + 1;
    }
  }

  /** Chunk starts strictly increase with the chunk index. */
  lemma {:induction false} ChunkStartsIncrease(i: nat, j: nat, chunkSize: int, overlap: int)
    requires overlap < chunkSize && i < j
    ensures ChunkStart(i, chunkSize, overlap) + (chunkSize - overlap) <= ChunkStart(j, chunkSize, overlap)
  {
    if j > i + 1 {
      ChunkStartsIncrease(i, j - 1, chunkSize, overlap);
    }
  }

  /** chunk_text_words returns [] exactly when the text has no words. */
  lemma ChunksEmptyIffBlank(text: string, chunkSize: int, overlap: int)
    requires overlap < chunkSize
    ensures ChunkWords(Words(text), chunkSize, overlap) == [] <==> IsBlank(text)
  {
    WordsEmptyIffBlank(text);
    ChunkAt(Words(text), chunkSize, overlap, 0);
  }

  // =================================================================== the build loop

  /** A metadata record, aligned with the vector at the same position. */
  datatype IndexEntry = IndexEntry(
    title: string, url: string, source: string, origDocIndex: nat, chunkId: nat, text: string)

  /** The chunks one document contributes: none when its text is empty or
      whitespace only, otherwise the chunker's output or, should that be empty,
      the first `chunkSize` characters (a branch that is never taken, see
      FallbackChunkUnreachable). */
  function DocChunks(doc: Document, chunkSize: int, overlap: int): seq<string>
    requires overlap < chunkSize
  {
    if doc.text == "" || |Strip(doc.text)| == 0 then []
    else
      var chunks := ChunkWords(Words(doc.text), chunkSize, overlap);
      if |chunks| == 0 then [Take(doc.text, chunkSize)] else chunks
  }

  /** The records for the given chunks of document `doc` at position `docIndex`:
      its title, url and source, its position, and chunk ids 0, 1, ... */
  function ChunkEntries(doc: Document, docIndex: nat, chunks: seq<string>): seq<IndexEntry> {
    seq(|chunks|, i requires 0 <= i < |chunks| =>
      IndexEntry(doc.title, doc.url, doc.source, docIndex, i, chunks[i]))
  }

  /** Each document's chunks, by document position. */
  function PerDocChunks(docs: seq<Document>, chunkSize: int, overlap: int): (r: seq<seq<string>>)
    requires overlap < chunkSize
    ensures |r| == |docs|
    ensures forall d :: 0 <= d < |docs| ==> r[d] == DocChunks(docs[d], chunkSize, overlap)
  {
    seq(|docs|, d requires 0 <= d < |docs| => DocChunks(docs[d], chunkSize, overlap))
  }

  /** The records of the first n documents, in document order, given each
      document's chunks: the metadata layout the build loop produces. */
  function Layout(docs: seq<Document>, chunks: seq<seq<string>>, n: nat): seq<IndexEntry>
    requires |chunks| == |docs| && n <= |docs|
  {
    if n == 0 then [] else Layout(docs, chunks, n - 1) + ChunkEntries(docs[n - 1], n - 1, chunks[n - 1])
  }

  /** The number of chunks of the first n documents. */
  function ChunkTotal(chunks: seq<seq<string>>, n: nat): nat
    requires n <= |chunks|
  {
    if n == 0 then 0 else ChunkTotal(chunks, n - 1) + |chunks[n - 1]|
  }

  /** The metadata a build of `docs` lays out. */
  function MetaOf(docs: seq<Document>, chunkSize: int, overlap: int): seq<IndexEntry>
    requires overlap < chunkSize
  {
    Layout(docs, PerDocChunks(docs, chunkSize, overlap), |docs|)
  }

  /** What a build run ends with. */
  datatype BuildOutcome<V> =
    | NoDocuments                                  // "No documents found": nothing built
    | NoChunks                                     // "No text chunks created": nothing built
    | BadBatchSize                                 // `range` or `np.vstack` raises ValueError
    | Built(vectors: seq<V>, meta: seq<IndexEntry>) // the index contents and the metadata saved beside it

  function BuildPlan<V>(docs: seq<Document>, chunkSize: int, overlap: int, batchSize: int, embed: string -> V): BuildOutcome<V>
    requires overlap < chunkSize
  {
    if |docs| == 0 then NoDocuments
    else
      var meta := MetaOf(docs, chunkSize, overlap);
      if |meta| == 0 then NoChunks
      else if batchSize <= 0 then BadBatchSize
      else Built(seq(|meta|, i requires 0 <= i < |meta| => embed(meta[i].text)), meta)
  }

  /** The batched embedding loop: batches of `batchSize` texts, stacked in
      order, so vector i is the embedding of text i. */
  method EmbedInBatches<V>(texts: seq<string>, batchSize: int, embed: string -> V) returns (vectors: seq<V>)
    requires batchSize > 0
    ensures |vectors| == |texts|
    ensures forall i :: 0 <= i < |texts| ==> vectors[i] == embed(texts[i])
  {
    vectors := [];
    var i: nat := 0;
    while i < |texts|
      invariant |vectors| == Min(i, |texts|)
      invariant forall j :: 0 <= j < |vectors| ==> vectors[j] == embed(texts[j])
      decreases |texts| - i
    {
      var batch := Slice(texts, i, i + batchSize);
      var embs := seq(|batch|, j requires 0 <= j < |batch| => embed(batch[j]));
      vectors := vectors + embs;
      i := i + batchSize;
    }
  }

  /** The inner loop of build_index: append each chunk to `texts` and its
      record to `meta`, keeping the two lists aligned. */
  method AppendChunks(texts: seq<string>, meta: seq<IndexEntry>, doc: Document, docIndex: nat, chunks: seq<string>)
    returns (texts': seq<string>, meta': seq<IndexEntry>)
    requires |texts| == |meta|
    requires forall i :: 0 <= i < |meta| ==> texts[i] == meta[i].text
    ensures meta' == meta + ChunkEntries(doc, docIndex, chunks)
    ensures |texts'| == |meta'|
    ensures forall i :: 0 <= i < |meta'| ==> texts'[i] == meta'[i].text
  {
    texts', meta' := texts, meta;
    var i := 0;
    while i < |chunks|
      invariant 0 <= i <= |chunks|
      invariant meta' == meta + ChunkEntries(doc, docIndex, chunks)[..i]
      invariant |texts'| == |meta'|
      invariant forall j :: 0 <= j < |meta'| ==> texts'[j] == meta'[j].text
    {
      texts' := texts' + [chunks[i]];
      meta' := meta' + [IndexEntry(doc.title, doc.url, doc.source, docIndex, i, chunks[i])];
      i := i + 1;
    }
    assert ChunkEntries(doc, docIndex, chunks)[..i] == ChunkEntries(doc, docIndex, chunks);
  }


  /** The chunks one document contributes: none for an empty or whitespace-only
      text, otherwise the word windows, with the first `chunkSize` characters
      as a fallback when the chunker returns nothing. */
  method ChunkDocument(doc: Document, chunkSize: int, overlap: int) returns (chunks: seq<string>)
    requires overlap < chunkSize
    ensures chunks == DocChunks(doc, chunkSize, overlap)
  {
    var t := doc.text;
    if t == "" || |Strip(t)| == 0 {
      return [];
    }
    chunks := ChunkTextWords(t, chunkSize, overlap);
    if |chunks| == 0 {
      chunks := [Take(t, chunkSize)];
    }
  }


  /** The outer loop of build_index: chunk every document in order, collecting
      the chunk texts and their records side by side. */
  method ChunkAll(documents: seq<Document>, chunkSize: int, overlap: int)
    returns (texts: seq<string>, meta: seq<IndexEntry>)
    requires overlap < chunkSize
    ensures meta == MetaOf(documents, chunkSize, overlap)
    ensures |texts| == |meta|
    ensures forall i :: 0 <= i < |meta| ==> texts[i] == meta[i].text
  {
    ghost var perDoc := PerDocChunks(documents, chunkSize, overlap);
    texts := [];
    meta := [];
    var d := 0;
    while d < |documents|
      invariant 0 <= d <= |documents|
      invariant meta == Layout(documents, perDoc, d)
      invariant |texts| == |meta|
      invariant forall i :: 0 <= i < |meta| ==> texts[i] == meta[i].text
    {
      var doc := documents[d];
      var chunks := ChunkDocument(doc, chunkSize, overlap);
      assert Layout(documents, perDoc, d + 1) == meta + ChunkEntries(doc, d, chunks);
      texts, meta := AppendChunks(texts, meta, doc, d, chunks);
      d := d + 1;
    }
  }

  /** build_index: the chunk/metadata loop, the emptiness checks and the batched
      embedding. The vector at position i is the embedding of metadata record i's text. */
  method Build<V>(documents: seq<Document>, chunkSize: int, overlap: int, batchSize: int, embed: string -> V)
    returns (out: BuildOutcome<V>)
    requires overlap < chunkSize
    ensures out == BuildPlan(documents, chunkSize, overlap, batchSize, embed)
    ensures out.Built? ==> |out.vectors| == |out.meta| > 0
    ensures out.Built? ==> forall i :: 0 <= i < |out.meta| ==> out.vectors[i] == embed(out.meta[i].text)
  {
    if |documents| == 0 {
      return NoDocuments;
    }
    var texts, meta := ChunkAll(documents, chunkSize, overlap);
    if |texts| == 0 {
      return NoChunks;
    }
    if batchSize <= 0 {
      return BadBatchSize;
    }
    var vectors := EmbedInBatches(texts, batchSize, embed);
    assert vectors == seq(|meta|, i requires 0 <= i < |meta| => embed(meta[i].text));
    return Built(vectors, meta);
  }

  // =================================================================== properties of the layout

  /** The fallback chunk `t[:chunk_size]` is never used: a text that passes the
      whitespace check always has words, so the chunker output is non-empty. */
  lemma FallbackChunkUnreachable(doc: Document, chunkSize: int, overlap: int)
    requires overlap < chunkSize
    ensures DocChunks(doc, chunkSize, overlap) == ChunkWords(Words(doc.text), chunkSize, overlap)
  {
    StripEmptyIffBlank(doc.text);
    ChunksEmptyIffBlank(doc.text, chunkSize, overlap);
  }

  /** Record order within the metadata: by document index, then by chunk id. */
  predicate Precedes(a: IndexEntry, b: IndexEntry) {
    a.origDocIndex < b.origDocIndex || (a.origDocIndex == b.origDocIndex && a.chunkId < b.chunkId)
  }

  /** Every record of the first n documents is chunk `chunkId` of a document
      `origDocIndex < n`, carrying that document's title, url and source. */
  lemma {:induction false} LayoutDescribesChunks(docs: seq<Document>, chunks: seq<seq<string>>, n: nat)
    requires |chunks| == |docs| && n <= |docs|
    ensures forall e :: e in Layout(docs, chunks, n) ==>
              && e.origDocIndex < n
              && e.chunkId < |chunks[e.origDocIndex]|
              && e == IndexEntry(docs[e.origDocIndex].title, docs[e.origDocIndex].url, docs[e.origDocIndex].source,
                                 e.origDocIndex, e.chunkId, chunks[e.origDocIndex][e.chunkId])
  {
    if n > 0 {
      LayoutDescribesChunks(docs, chunks, n - 1);
    }
  }

  /** Records are strictly ordered by (document index, chunk id). */
  lemma {:induction false} LayoutOrdered(docs: seq<Document>, chunks: seq<seq<string>>, n: nat)
    requires |chunks| == |docs| && n <= |docs|
    ensures forall i, j :: 0 <= i < j < |Layout(docs, chunks, n)| ==>
              Precedes(Layout(docs, chunks, n)[i], Layout(docs, chunks, n)[j])
  {
    if n > 0 {
      var prev := Layout(docs, chunks, n - 1);
      var last := ChunkEntries(docs[n - 1], n - 1, chunks[n - 1]);
      LayoutOrdered(docs, chunks, n - 1);
      LayoutDescribesChunks(docs, chunks, n - 1);
      var all := prev + last;
      assert Layout(docs, chunks, n) == all;
      forall i, j | 0 <= i < j < |all| ensures Precedes(all[i], all[j]) {
        if j >= |prev| && i < |prev| {
          assert all[i] in prev;
        }
      }
    }
  }

  /** One record per chunk. */
  lemma {:induction false} LayoutLength(docs: seq<Document>, chunks: seq<seq<string>>, n: nat)
    requires |chunks| == |docs| && n <= |docs|
    ensures |Layout(docs, chunks, n)| == ChunkTotal(chunks, n)
  {
    if n > 0 {
      LayoutLength(docs, chunks, n - 1);
    }
  }

  /** Chunk c of document d sits at position ChunkTotal(d) + c of the
      metadata: no chunk is dropped, and chunk ids run 0, 1, ... per document. */
  lemma {:induction false} LayoutAt(docs: seq<Document>, chunks: seq<seq<string>>, n: nat, d: nat, c: nat)
    requires |chunks| == |docs| && n <= |docs|
    requires d < n && c < |chunks[d]|
    ensures ChunkTotal(chunks, d) + c < |Layout(docs, chunks, n)|
    ensures Layout(docs, chunks, n)[ChunkTotal(chunks, d) + c]
            == IndexEntry(docs[d].title, docs[d].url, docs[d].source, d, c, chunks[d][c])
  {
    var prev := Layout(docs, chunks, n - 1);
    var last := ChunkEntries(docs[n - 1], n - 1, chunks[n - 1]);
    assert Layout(docs, chunks, n) == prev + last;
    var pos := ChunkTotal(chunks, d) + c;
    if d < n - 1 {
      LayoutAt(docs, chunks, n - 1, d, c);
      assert (prev + last)[pos] == prev[pos];
    } else {
      LayoutLength(docs, chunks, n - 1);
      assert (prev + last)[pos] == last[c];
    }
  }

  lemma {:induction false} AllEmptyTotalZero(chunks: seq<seq<string>>, n: nat)
    requires n <= |chunks|
    requires forall d :: 0 <= d < n ==> chunks[d] == []
    ensures ChunkTotal(chunks, n) == 0
  {
    if n > 0 {
      AllEmptyTotalZero(chunks, n - 1);
    }
  }

  /** A document whose text is empty or whitespace only has no record. */
  lemma BlankDocumentsContributeNothing(docs: seq<Document>, chunkSize: int, overlap: int, d: nat)
    requires overlap < chunkSize && d < |docs| && IsBlank(docs[d].text)
    ensures forall e :: e in MetaOf(docs, chunkSize, overlap) ==> e.origDocIndex != d
  {
    StripEmptyIffBlank(docs[d].text);
    var perDoc := PerDocChunks(docs, chunkSize, overlap);
    assert perDoc[d] == [];
    LayoutDescribesChunks(docs, perDoc, |docs|);
  }

  /** A non-empty corpus builds nothing exactly when every text is blank. */
  lemma NoChunksIffAllBlank<V>(docs: seq<Document>, chunkSize: int, overlap: int, batchSize: int, embed: string -> V)
    requires overlap < chunkSize && |docs| > 0
    ensures BuildPlan(docs, chunkSize, overlap, batchSize, embed) == NoChunks
            <==> forall d :: 0 <= d < |docs| ==> IsBlank(docs[d].text)
  {
    var perDoc := PerDocChunks(docs, chunkSize, overlap);
    LayoutLength(docs, perDoc, |docs|);
    if forall d :: 0 <= d < |docs| ==> IsBlank(docs[d].text) {
      forall d | 0 <= d < |docs| ensures perDoc[d] == [] {
        StripEmptyIffBlank(docs[d].text);
      }
      AllEmptyTotalZero(perDoc, |docs|);
    } else {
      var d :| 0 <= d < |docs| && !IsBlank(docs[d].text);
      FallbackChunkUnreachable(docs[d], chunkSize, overlap);
      ChunksEmptyIffBlank(docs[d].text, chunkSize, overlap);
      LayoutAt(docs, perDoc, |docs|, d, 0);
    }
  }

  /** Two short documents (non-blank, at most one stride of words each) give
      an index of exactly two vectors, one per document. */
  lemma TwoShortDocumentsTwoVectors<V>(docs: seq<Document>, chunkSize: int, overlap: int, batchSize: int, embed: string -> V)
    requires overlap < chunkSize && batchSize > 0 && |docs| == 2
    requires forall d :: 0 <= d < 2 ==> 0 < |Words(docs[d].text)| <= chunkSize - overlap
    ensures BuildPlan(docs, chunkSize, overlap, batchSize, embed).Built?
    ensures |BuildPlan(docs, chunkSize, overlap, batchSize, embed).vectors| == 2
  {
    var perDoc := PerDocChunks(docs, chunkSize, overlap);
    forall d | 0 <= d < 2 ensures |perDoc[d]| == 1 {
      FallbackChunkUnreachable(docs[d], chunkSize, overlap);
      SingleChunkIff(Words(docs[d].text), chunkSize, overlap);
    }
    LayoutLength(docs, perDoc, 2);
    assert ChunkTotal(perDoc, 2) == 2 by {
      assert ChunkTotal(perDoc, 1) == 1;
    }
  }
}
